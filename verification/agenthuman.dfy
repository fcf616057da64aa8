/**
  * The human player of src/snake/agentHuman.py: key presses become moves
  * through a queue of compass directions. The queue (direction_stack) is
  * a class attribute, one list shared by every agent; nextAction takes
  * from its front, and the hook run before every turn of the game loop
  * appends arrow keys to its back unless the game is paused, toggles the
  * pause on p, and stops the loop on a quit event.
  *
  * pygame's event queue is a parameter: the batch of events one call of
  * the hook receives.
  */
module AgentHuman {
  import opened Wrappers
  import opened Grid

  datatype Key = P | Up | Right | Left | Down | OtherKey

  datatype Event = QuitEvent | KeyDownEvent(key: Key) | OtherEvent

  /** The direction an arrow key asks for; other keys ask for none. */
  function Arrow(k: Key): (d: Option<Vec>)
    ensures d.Some? <==> k in {Up, Right, Left, Down}
    ensures d.Some? ==> IsCompass(d.value)
  {
    match k
    case Up => Some(NORTH)
    case Right => Some(EAST)
    case Left => Some(WEST)
    case Down => Some(SOUTH)
    case _ => None
  }

  /** What the hook reads and writes: the shared queue and the pause and running flags. */
  datatype Input = Input(queue: seq<Vec>, pause: bool, running: bool)

  /** One event other than quit: p toggles the pause first, then an arrow is queued unless paused. */
  function HandleKey(st: Input, e: Event): (r: Input)
    requires !e.QuitEvent?
    ensures r.running == st.running
    ensures r.pause == (if e == KeyDownEvent(P) then !st.pause else st.pause)
    ensures r.queue == if e.KeyDownEvent? && Arrow(e.key).Some? && !r.pause then st.queue + [Arrow(e.key).value] else st.queue
  {
    match e
    case KeyDownEvent(k) =>
      var pause := if k == P then !st.pause else st.pause;
      var queue := if Arrow(k).Some? && !pause then st.queue + [Arrow(k).value] else st.queue;
      Input(queue, pause, st.running)
    case OtherEvent => st
  }

  /** The event loop of gameLoop_preHook over one batch: a quit event clears running and ends the batch. */
  function ProcessEvents(st: Input, events: seq<Event>): Input
    decreases |events|
  {
    if events == [] then st
    else if events[0].QuitEvent? then st.(running := false)
    else ProcessEvents(HandleKey(st, events[0]), events[1..])
  }

  /** The directions the arrow keys of a batch ask for, in order. */
  function Arrows(events: seq<Event>): (ds: seq<Vec>)
    ensures forall i :: 0 <= i < |ds| ==> IsCompass(ds[i])
  {
    if events == [] then []
    else
      var rest := Arrows(events[1..]);
      match events[0]
      case KeyDownEvent(k) => if Arrow(k).Some? then [Arrow(k).value] + rest else rest
      case _ => rest
  }

  /** The hook only appends: the queue before the batch is a prefix of the queue after it. */
  lemma {:induction false} QueueOnlyGrows(st: Input, events: seq<Event>)
    ensures st.queue <= ProcessEvents(st, events).queue
    decreases |events|
  {
    if events != [] && !events[0].QuitEvent? {
      QueueOnlyGrows(HandleKey(st, events[0]), events[1..]);
    }
  }

  /** Running is cleared exactly when the batch holds a quit event (and stays cleared). */
  lemma {:induction false} QuitStopsRunning(st: Input, events: seq<Event>)
    ensures ProcessEvents(st, events).running == (st.running && QuitEvent !in events)
    decreases |events|
  {
    if events != [] && !events[0].QuitEvent? {
      QuitStopsRunning(HandleKey(st, events[0]), events[1..]);
      assert events == [events[0]] + events[1..];
    }
  }

  /** Events after a quit event are not looked at. */
  lemma {:induction false} QuitEndsBatch(st: Input, before: seq<Event>, after: seq<Event>)
    requires QuitEvent !in before
    ensures ProcessEvents(st, before + [QuitEvent] + after) == ProcessEvents(st, before).(running := false)
    decreases |before|
  {
    if before != [] {
      assert (before + [QuitEvent] + after)[1..] == before[1..] + [QuitEvent] + after;
      QuitEndsBatch(HandleKey(st, before[0]), before[1..], after);
    }
  }

  /** While paused, and with no p pressed, arrow keys queue nothing. */
  lemma {:induction false} PausedQueuesNothing(st: Input, events: seq<Event>)
    requires st.pause && KeyDownEvent(P) !in events
    ensures ProcessEvents(st, events).queue == st.queue
    ensures ProcessEvents(st, events).pause
    decreases |events|
  {
    if events != [] && !events[0].QuitEvent? {
      assert events[0] != KeyDownEvent(P);
      PausedQueuesNothing(HandleKey(st, events[0]), events[1..]);
    }
  }

  /** Unpaused, with no p and no quit, every arrow key is queued, in the order pressed. */
  lemma {:induction false} ArrowsQueuedInOrder(st: Input, events: seq<Event>)
    requires !st.pause && KeyDownEvent(P) !in events && QuitEvent !in events
    ensures ProcessEvents(st, events) == st.(queue := st.queue + Arrows(events))
    decreases |events|
  {
    if events != [] {
      assert events[0] != KeyDownEvent(P) && events[0] != QuitEvent;
      var next := HandleKey(st, events[0]);
      ArrowsQueuedInOrder(next, events[1..]);
    }
  }

  /**
    * Pressing p while paused resumes the game, and the arrow keys pressed
    * after it in the same batch are all queued, in order.
    */
  lemma ResumeThenArrows(st: Input, events: seq<Event>)
    requires st.pause && KeyDownEvent(P) !in events && QuitEvent !in events
    ensures ProcessEvents(st, [KeyDownEvent(P)] + events) == st.(pause := false, queue := st.queue + Arrows(events))
  {
    var resumed := HandleKey(st, KeyDownEvent(P));
    assert ([KeyDownEvent(P)] + events)[1..] == events;
    ArrowsQueuedInOrder(resumed, events);
  }

  /** The pause flag ends toggled exactly when p was pressed an odd number of times before any quit. */
  function PressesOfP(events: seq<Event>): nat {
    if events == [] || events[0].QuitEvent? then 0
    else (if events[0] == KeyDownEvent(P) then 1 else 0) + PressesOfP(events[1..])
  }

  lemma {:induction false} PauseParity(st: Input, events: seq<Event>)
    ensures ProcessEvents(st, events).pause == (if PressesOfP(events) % 2 == 0 then st.pause else !st.pause)
    decreases |events|
  {
    if events != [] && !events[0].QuitEvent? {
      PauseParity(HandleKey(st, events[0]), events[1..]);
    }
  }

  /** Every queued direction is a compass vector, and the hook keeps it so. */
  lemma {:induction false} QueueStaysCompass(st: Input, events: seq<Event>)
    requires forall i :: 0 <= i < |st.queue| ==> IsCompass(st.queue[i])
    ensures forall i :: 0 <= i < |ProcessEvents(st, events).queue| ==> IsCompass(ProcessEvents(st, events).queue[i])
    decreases |events|
  {
    if events != [] && !events[0].QuitEvent? {
      QueueStaysCompass(HandleKey(st, events[0]), events[1..]);
    }
  }

  /** nextAction as a value: the front of the queue and the rest, or FORWARD and the queue left empty. */
  function Pop(queue: seq<Vec>): (r: (Arg, seq<Vec>))
    ensures queue == [] ==> r == (IntArg(FORWARD), [])
    ensures queue != [] ==> r.0 == ArrayArg(queue[0]) && [queue[0]] + r.1 == queue
  {
    if queue == [] then (IntArg(FORWARD), []) else (ArrayArg(queue[0]), queue[1..])
  }

  /** The actions k successive calls of nextAction return. */
  function Drain(queue: seq<Vec>, k: nat): seq<Arg>
    decreases k
  {
    if k == 0 then [] else
      var (a, rest) := Pop(queue);
      [a] + Drain(rest, k - 1)
  }

  /**
    * First in, first out: n calls of nextAction return what was queued, in
    * the same order, then FORWARD for every further call.
    */
  lemma {:induction false} FirstInFirstOut(queue: seq<Vec>, n: nat)
    requires |queue| <= n
    ensures |Drain(queue, n)| == n
    ensures forall i :: 0 <= i < |queue| ==> Drain(queue, n)[i] == ArrayArg(queue[i])
    ensures forall i :: |queue| <= i < n ==> Drain(queue, n)[i] == IntArg(FORWARD)
    decreases n
  {
    if n > 0 {
      var (a, rest) := Pop(queue);
      FirstInFirstOut(rest, n - 1);
      assert Drain(queue, n) == [a] + Drain(rest, n - 1);
    }
  }

  /** Every action taken from a queue of compass vectors passes the move validation of the engine. */
  lemma PoppedActionIsValid(queue: seq<Vec>)
    requires queue != [] ==> IsCompass(queue[0])
    ensures PassesValidation(Pop(queue).0)
  {
  }

  /** direction_stack: one list, shared by every agent that holds it. */
  class DirectionStack {
    var items: seq<Vec>

    constructor ()
      ensures items == []
    {
      items := [];
    }
  }

  class Agent {
    /** The class attribute direction_stack: agents built with the same stack share it. */
    const stack: DirectionStack
    var pause: bool
    var running: bool

    constructor (stack: DirectionStack)
      ensures this.stack == stack && !pause && running
    {
      this.stack := stack;
      pause := false;
      running := true;
    }

    /** The state the hook reads and writes. */
    function InputState(): Input
      reads this, stack
    {
      Input(stack.items, pause, running)
    }

    /** nextAction: pop the front of the queue, or FORWARD when it is empty. */
    method NextAction() returns (a: Arg)
      modifies stack`items
      ensures (a, stack.items) == Pop(old(stack.items))
    {
      if stack.items == [] {
        return IntArg(FORWARD);
      }
      a := ArrayArg(stack.items[0]);
      stack.items := stack.items[1..];
    }

    /** The event handling of gameLoop_preHook, over one batch of events. */
    method GameLoopPreHook(events: seq<Event>)
      modifies this`pause, this`running, stack`items
      ensures InputState() == ProcessEvents(old(InputState()), events)
    {
      ghost var start := InputState();
      var i := 0;
      while i < |events|
        invariant 0 <= i <= |events|
        invariant ProcessEvents(InputState(), events[i..]) == ProcessEvents(start, events)
      {
        var event := events[i];
        assert events[i..][0] == event && events[i..][1..] == events[i + 1..];
        if event.QuitEvent? {
          running := false;
          return;
        }
        if event.KeyDownEvent? {
          if event.key == P {
            pause := !pause;
          }
          if event.key == Up && !pause {
            stack.items := stack.items + [NORTH];
          }
          if event.key == Right && !pause {
            stack.items := stack.items + [EAST];
          }
          if event.key == Left && !pause {
            stack.items := stack.items + [WEST];
          }
          if event.key == Down && !pause {
            stack.items := stack.items + [SOUTH];
          }
        }
        i := i + 1;
      }
      assert events[i..] == [];
    }
  }
}
