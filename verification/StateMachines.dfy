/**
 The validated state machine that both drivers of the agent loop go through.
 */
module StateMachines {
  import opened Base

  datatype AgentState = Idle | Running | AwaitingLLM | ToolExecuting | Paused | Completed | Error

  datatype StateEvent =
    | Start
    | LLMRequestSent
    | LLMResponseReceived
    | ToolsRequired
    | ToolsCompleted
    | UserInterrupt
    | StopConditionMet
    | Error
    | Reset

  datatype TransitionResult =
    | Success(state: AgentState)
    | Invalid(from: AgentState, event: StateEvent, allowed: seq<StateEvent>)

  /** The legal moves of the machine. */
  function Next(s: AgentState, e: StateEvent): Option<AgentState> {
    match (s, e)
    case (Idle, Start) => Some(Running)
    case (Running, LLMRequestSent) => Some(AwaitingLLM)
    case (Running, StopConditionMet) => Some(Completed)
    case (AwaitingLLM, LLMResponseReceived) => Some(Running)
    case (AwaitingLLM, ToolsRequired) => Some(ToolExecuting)
    case (ToolExecuting, ToolsCompleted) => Some(Running)
    case (Paused, Start) => Some(Running)
    case (_, Error) => if Active(s) then Some(AgentState.Error) else None
    case (_, UserInterrupt) => if Active(s) then Some(Paused) else None
    case (_, Reset) => if Active(s) then None else Some(Idle)
    case _ => None
  }

  /** The states in which a run is under way. */
  predicate Active(s: AgentState) {
    s == Running || s == AwaitingLLM || s == ToolExecuting
  }

  /** Follows a sequence of events; None as soon as one of them is refused. */
  function Follow(s: AgentState, events: seq<StateEvent>): Option<AgentState>
    decreases |events|
  {
    if events == [] then Some(s)
    else
      var n := Next(s, events[0]);
      if n.None? then None else Follow(n.value, events[1..])
  }

  const ALL_STATES := {Idle, Running, AwaitingLLM, ToolExecuting, Paused, Completed, AgentState.Error}

  class StateMachine {
    var current: AgentState
    var transitions: map<(AgentState, StateEvent), AgentState>
    var allowedEvents: map<AgentState, seq<StateEvent>>

    /** The per-state event index lists exactly the keys of the table, once each. */
    ghost predicate Indexed()
      reads this
    {
      && (forall s, e :: (s, e) in transitions <==> s in allowedEvents && e in allowedEvents[s])
      && (forall s :: s in allowedEvents ==> Distinct(allowedEvents[s]))
    }

    /** For the given states, and no others, the table is the relation Next. */
    ghost predicate Covers(states: set<AgentState>)
      reads this
    {
      && Indexed()
      && (forall s, e :: (s, e) in transitions <==> s in states && Next(s, e).Some?)
      && (forall s, e :: (s, e) in transitions ==> transitions[(s, e)] == Next(s, e).value)
    }

    /** The table is the relation Next, and the index agrees with it. */
    ghost predicate Valid()
      reads this
    {
      Covers(ALL_STATES)
    }

    constructor ()
      ensures Valid() && current == Idle
    {
      current := Idle;
      transitions := map[];
      allowedEvents := map[];
      new;
      BuildTransitionTable();
    }

    method AddTransition(from: AgentState, event: StateEvent, to: AgentState)
      requires Indexed() && (from, event) !in transitions
      modifies this`transitions, this`allowedEvents
      ensures Indexed()
      ensures transitions == old(transitions)[(from, event) := to]
    {
      var events := if from in allowedEvents then allowedEvents[from] else [];
      transitions := transitions[(from, event) := to];
      allowedEvents := allowedEvents[from := events + [event]];
    }

    method BuildTransitionTable()
      requires transitions == map[] && allowedEvents == map[]
      modifies this`transitions, this`allowedEvents
      ensures Valid()
    {
      AddTransition(Idle, Start, Running);
      AddTransition(Idle, Reset, Idle);
      AddRunningRows();
      AddAwaitingRows();
      AddToolRows();
      AddPausedRows();
      AddFinalRows();
    }

    // The rows of each state form a method of their own to keep the proof obligations small.
    /** Any state of a run can fail or be paused. */
    method AddFaultRows(s: AgentState)
      requires Indexed() && (s, StateEvent.Error) !in transitions && (s, UserInterrupt) !in transitions
      modifies this`transitions, this`allowedEvents
      ensures Indexed()
      ensures transitions == old(transitions)[(s, StateEvent.Error) := AgentState.Error][(s, UserInterrupt) := Paused]
    {
      AddTransition(s, StateEvent.Error, AgentState.Error);
      AddTransition(s, UserInterrupt, Paused);
    }

    method AddRunningRows()
      requires Covers({Idle})
      modifies this`transitions, this`allowedEvents
      ensures Covers({Idle, Running})
    {
      AddTransition(Running, LLMRequestSent, AwaitingLLM);
      AddTransition(Running, StopConditionMet, Completed);
      AddFaultRows(Running);
      assert forall s, e :: s != Running && (s, e) in transitions ==>
                              (s, e) in old(transitions) && transitions[(s, e)] == old(transitions)[(s, e)];
      assert forall e :: (Running, e) in transitions <==> Next(Running, e).Some?;
      assert forall e :: (Running, e) in transitions ==> transitions[(Running, e)] == Next(Running, e).value;
    }

    method AddAwaitingRows()
      requires Covers({Idle, Running})
      modifies this`transitions, this`allowedEvents
      ensures Covers({Idle, Running, AwaitingLLM})
    {
      AddTransition(AwaitingLLM, LLMResponseReceived, Running);
      AddTransition(AwaitingLLM, ToolsRequired, ToolExecuting);
      AddFaultRows(AwaitingLLM);
      assert forall e :: (AwaitingLLM, e) in transitions <==> Next(AwaitingLLM, e).Some?;
    }

    method AddToolRows()
      requires Covers({Idle, Running, AwaitingLLM})
      modifies this`transitions, this`allowedEvents
      ensures Covers({Idle, Running, AwaitingLLM, ToolExecuting})
    {
      AddTransition(ToolExecuting, ToolsCompleted, Running);
      AddFaultRows(ToolExecuting);
    }

    method AddPausedRows()
      requires Covers({Idle, Running, AwaitingLLM, ToolExecuting})
      modifies this`transitions, this`allowedEvents
      ensures Covers({Idle, Running, AwaitingLLM, ToolExecuting, Paused})
    {
      AddTransition(Paused, Start, Running);
      AddTransition(Paused, Reset, Idle);
    }

    method AddFinalRows()
      requires Covers({Idle, Running, AwaitingLLM, ToolExecuting, Paused})
      modifies this`transitions, this`allowedEvents
      ensures Valid()
    {
      AddTransition(Completed, Reset, Idle);
      AddTransition(AgentState.Error, Reset, Idle);
    }

    method Transition(event: StateEvent) returns (r: TransitionResult)
      requires Valid()
      modifies this`current
      ensures Valid()
      ensures Next(old(current), event).Some? ==>
                current == Next(old(current), event).value && r == Success(current)
      ensures Next(old(current), event).None? ==> current == old(current) && r.Invalid?
      ensures r.Invalid? ==> r.from == old(current) && r.event == event && Distinct(r.allowed)
      ensures r.Invalid? ==> forall e :: e in r.allowed <==> Next(old(current), e).Some?
    {
      if (current, event) in transitions {
        current := transitions[(current, event)];
        r := Success(current);
      } else {
        var allowed := if current in allowedEvents then allowedEvents[current] else [];
        assert forall e :: e in allowed <==> (current, e) in transitions;
        r := Invalid(current, event, allowed);
      }
    }

    method ResetState()
      requires Valid()
      modifies this`current
      ensures Valid() && current == Idle
    {
      current := Idle;
    }
  }

  /** The legal moves, one by one. */
  const LEGAL_MOVES: set<(AgentState, StateEvent, AgentState)> := {
    (Idle, Start, Running),
    (Running, LLMRequestSent, AwaitingLLM),
    (Running, StopConditionMet, Completed),
    (Running, StateEvent.Error, AgentState.Error),
    (Running, UserInterrupt, Paused),
    (AwaitingLLM, LLMResponseReceived, Running),
    (AwaitingLLM, ToolsRequired, ToolExecuting),
    (AwaitingLLM, StateEvent.Error, AgentState.Error),
    (AwaitingLLM, UserInterrupt, Paused),
    (ToolExecuting, ToolsCompleted, Running),
    (ToolExecuting, StateEvent.Error, AgentState.Error),
    (ToolExecuting, UserInterrupt, Paused),
    (Paused, Start, Running),
    (Idle, Reset, Idle),
    (Paused, Reset, Idle),
    (Completed, Reset, Idle),
    (AgentState.Error, Reset, Idle)
  }

  lemma MovesAreLegal(s: AgentState, e: StateEvent, t: AgentState)
    ensures Next(s, e) == Some(t) <==> (s, e, t) in LEGAL_MOVES
  {
  }

  /** A finished or failed machine accepts no event before a Reset, and Reset leads to Idle. */
  lemma TerminalUntilReset(s: AgentState, events: seq<StateEvent>)
    requires s == Completed || s == AgentState.Error
    requires Follow(s, events).Some?
    ensures events == [] || (events[0] == Reset && Follow(s, events) == Follow(Idle, events[1..]))
  {
    if events != [] {
      assert Next(s, events[0]).Some?;
    }
  }

  /** Every state a run can finish in is left, and left only, through Idle: a completed machine
      that reaches Running again has passed a Reset and then a Start. */
  lemma {:induction false} RestartNeedsResetAndStart(s: AgentState, events: seq<StateEvent>)
    requires s == Completed || s == AgentState.Error || s == Idle
    requires Follow(s, events).Some? && Active(Follow(s, events).value)
    ensures Start in events
    ensures s != Idle ==> Reset in events
    decreases |events|
  {
    assert events != [];
    if s != Idle {
      TerminalUntilReset(s, events);
    }
    if Next(s, events[0]) == Some(Idle) {
      RestartNeedsResetAndStart(Idle, events[1..]);
      assert forall e :: e in events[1..] ==> e in events;
    } else {
      assert events[0] == Start;
    }
  }
}
