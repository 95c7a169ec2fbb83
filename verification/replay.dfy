/**
 * Sequences of user events applied to the game, one at a time, and the
 * end-to-end runs the game is expected to produce.
 */
module Replay {
  import opened Optional
  import opened Board
  import opened Game

  /** What the user can do: click a square, click a move-list entry, click the sort button. */
  datatype Event = Click(cell: Cell) | Jump(step: int) | ToggleOrder

  /**
   * One event. A jump to a step outside the history is refused (None); the
   * move list only offers steps that exist.
   */
  function Apply(s: GameState, e: Event): (r: Option<GameState>)
    requires WellFormed(s)
    ensures r.None? <==> e.Jump? && !(0 <= e.step < |s.history|)
    ensures r.Some? ==> WellFormed(r.value)
  {
    match e
    case Click(i) => Some(ClickSquare(s, i))
    case Jump(step) => if 0 <= step < |s.history| then Some(JumpTo(s, step)) else None
    case ToggleOrder => Some(ToggleSort(s))
  }

  /** The events in order; None as soon as one is refused. */
  function Run(s: GameState, events: seq<Event>): (r: Option<GameState>)
    requires WellFormed(s)
    ensures r.Some? ==> WellFormed(r.value)
    decreases |events|
  {
    if events == [] then Some(s)
    else
      match Apply(s, events[0])
      case None => None
      case Some(s') => Run(s', events[1..])
  }

  /** A run that starts with a click continues from the state the click produced. */
  lemma RunClick(s: GameState, events: seq<Event>)
    requires WellFormed(s) && |events| > 0 && events[0].Click?
    ensures Run(s, events) == Run(ClickSquare(s, events[0].cell), events[1..])
  {
  }

  /** A run that starts with a jump inside the history continues from the state the jump produced. */
  lemma RunJump(s: GameState, events: seq<Event>)
    requires WellFormed(s) && |events| > 0 && events[0].Jump? && 0 <= events[0].step < |s.history|
    ensures Run(s, events) == Run(JumpTo(s, events[0].step), events[1..])
  {
  }

  /** A single event keeps the invariant. */
  lemma ApplyPreservesInvariant(s: GameState, e: Event)
    requires Invariant(s)
    ensures Apply(s, e).Some? ==> Invariant(Apply(s, e).value)
  {
    match e
    case Click(i) => ClickSquarePreservesInvariant(s, i);
    case Jump(step) =>
      if 0 <= step < |s.history| {
        JumpToPreservesInvariant(s, step);
      }
    case ToggleOrder => ToggleSortPreservesInvariant(s);
  }

  /** Every state reached from a state satisfying the invariant satisfies it too. */
  lemma {:induction false} RunPreservesInvariant(s: GameState, events: seq<Event>)
    requires Invariant(s)
    ensures Run(s, events).Some? ==> Invariant(Run(s, events).value)
    decreases |events|
  {
    if events != [] {
      ApplyPreservesInvariant(s, events[0]);
      var next := Apply(s, events[0]);
      if next.Some? {
        RunPreservesInvariant(next.value, events[1..]);
      }
    }
  }

  /** Every state the game can reach from its start satisfies the invariant. */
  lemma ReachableStatesSatisfyInvariant(events: seq<Event>)
    ensures Run(Init(), events).Some? ==> Invariant(Run(Init(), events).value)
  {
    RunPreservesInvariant(Init(), events);
  }
}
