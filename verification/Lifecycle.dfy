/** The task state machine and the lifetime rule (internal/sandbox/sandbox.go). */
module Lifecycle {
  import opened Wrappers

  // The source's state is a string; Other stands for every string that names none of
  // the five states, the empty string among them.
  datatype TaskState = Pending | Running | Failed | Stopping | Stopped | Other(name: string)

  const NO_STATE := Other("")

  const SECOND: int := 1_000_000_000
  const DEFAULT_TTL: int := 15 * 60 * SECOND
  const MAX_TTL: int := 24 * 3600 * SECOND

  function ValidTransitions(from: TaskState): seq<TaskState> {
    match from
    case Pending => [Running, Failed]
    case Running => [Failed, Stopping]
    case Stopping => [Stopped]
    case _ => []
  }

  function CanTransition(from: TaskState, to: TaskState): Result<()> {
    if from.Other? || to.Other? then Err(ErrInvalidState)
    else if to !in ValidTransitions(from) then Err(ErrInvalidStateTransition)
    else Ok(())
  }

  predicate Legal(from: TaskState, to: TaskState) {
    CanTransition(from, to).Ok?
  }

  function ResolveTTL(requested: int): (r: Result<int>)
    ensures r.Ok? <==> 0 <= requested <= MAX_TTL
    ensures r.Ok? ==> 0 < r.value <= MAX_TTL
    ensures r.Ok? ==> r.value == if requested == 0 then DEFAULT_TTL else requested
  {
    if requested == 0 then Ok(DEFAULT_TTL)
    else if requested < 0 || requested > MAX_TTL then Err(ErrInvalidSpec)
    else Ok(requested)
  }

  predicate Terminal(s: TaskState) {
    s == Stopped || s == Failed
  }

  /** The state of a sandbox whose stop was asked for or that is over. */
  predicate Settled(s: TaskState) {
    s == Stopping || Terminal(s)
  }

  // A walk along legal edges, as a sequence of states.
  ghost predicate Walk(states: seq<TaskState>) {
    && states != []
    && forall k :: 1 <= k < |states| ==> Legal(states[k - 1], states[k])
  }

  /** The number of edges walked from pending is fixed by the state reached, except
      that failed has two ways in. */
  predicate StepsFit(s: TaskState, steps: int) {
    match s
    case Pending => steps == 0
    case Running => steps == 1
    case Stopping => steps == 2
    case Stopped => steps == 3
    case Failed => steps == 1 || steps == 2
    case Other(_) => false
  }

  lemma {:induction false} WalkIsShort(states: seq<TaskState>)
    requires Walk(states) && states[0] == Pending
    ensures StepsFit(states[|states| - 1], |states| - 1)
    ensures |states| <= 4
  {
    if |states| > 1 {
      var init := states[..|states| - 1];
      assert forall k :: 0 <= k < |init| ==> states[k] == init[k];
      WalkIsShort(init);
      assert Legal(states[|states| - 2], states[|states| - 1]);
    }
  }

  /** No path leads back: once settled, a walk stays settled, and a terminal state
      ends it. */
  lemma {:induction false} SettledIsForever(states: seq<TaskState>, k: nat)
    requires Walk(states) && k < |states| && Settled(states[k])
    ensures Settled(states[|states| - 1])
    ensures Terminal(states[k]) ==> k == |states| - 1
    decreases |states| - k
  {
    if k + 1 < |states| {
      assert Legal(states[k], states[k + 1]);
      SettledIsForever(states, k + 1);
    }
  }

  const LEGAL_EDGES: set<(TaskState, TaskState)> := {
    (Pending, Running), (Pending, Failed), (Running, Failed), (Running, Stopping), (Stopping, Stopped)
  }

  /** The five legal edges, and which sentinel every other pair gets. */
  lemma TransitionMatrix(from: TaskState, to: TaskState)
    ensures CanTransition(from, to) ==
              if from.Other? || to.Other? then Err(ErrInvalidState)
              else if (from, to) in LEGAL_EDGES then Ok(())
              else Err(ErrInvalidStateTransition)
  {
  }
}
