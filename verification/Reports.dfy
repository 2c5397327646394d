/** What one action of a pass reports, with every call free to fail: no error means the work
    is done, an error means the row is untouched (internal/reconciler/reconciler.go). */
module Reports {
  import opened Wrappers
  import opened Lifecycle
  import opened SpecResolve
  import opened Tables
  import opened RuntimeMap
  import opened Decision
  import opened Passes

  // ---- Taking down ----

  predicate TakesDown(action: Action) {
    action == ActionDestroy || action == ActionReap || action == ActionDestroyOrphan
  }

  // The runtime is asked to destroy, unless a reap saw no container.
  predicate Destroys(action: Action, item: Item) {
    action != ActionReap || item.observed.Some?
  }

  /** A destroy that fails ends the action: its error is the action's, and the row is left as
      it was, so the next pass tries again. */
  lemma FailedDestroyStops(p: Plant, action: Action, item: Item, f: Faults)
    requires TakesDown(action) && Begin(action, item).Ok? && Destroys(action, item)
    requires RtDestroy(p.cs, item.id, f.destroy).result.Err?
    ensures var r, rt := Handle(p, action, item, f), RtDestroy(p.cs, item.id, f.destroy);
            r.plant == p.(cs := rt.cs) && r.error == Some(rt.result.error)
  {
    var op := Begin(action, item).value;
    assert op.CallDestroy?;
    assert StepOp(p, item.id, op, f).error.Some?;
  }

  // The state a taken-down row ends in, by the state it was listed in.
  function EndOf(state: TaskState): TaskState {
    if state == Stopping then Stopped else Failed
  }

  // A mark, or nothing, ends the action.
  lemma FinishOfLast(p: Plant, id: string, op: Op, f: Faults)
    requires op.Mark? || op == Done
    ensures var r := Finish(p, id, op, f);
            if op == Done then r == Outcome(p, None)
            else
              var tx := UpdateState(p.db, id, op.from, op.to, op.reason, op.version, f.write);
              r == Outcome(p.(db := tx.db), match tx.result case Ok(_) => None case Err(e) => Some(e))
  {
    if op.Mark? {
      var r := StepOp(p, id, op, f);
      assert r.next == Done;
      assert r.error.None? ==> Finish(r.plant, id, Done, f) == Outcome(r.plant, None);
    }
  }

  /** A destroy that succeeds comes before the mark: the container is gone whatever the mark
      then does, and the mark's own failure is the action's error. */
  lemma DestroyComesFirst(p: Plant, action: Action, item: Item, f: Faults)
    requires action == ActionDestroy || action == ActionReap
    requires item.id != "" && item.desired.Some?
    requires item.observed == Lookup(p.cs, item.id) && RtDestroy(p.cs, item.id, f.destroy).result.Ok?
    ensures var r, row := Handle(p, action, item, f), item.desired.value;
            && r.plant.cs == p.cs - {item.id}
            && if action == ActionDestroy && row.state != Stopping then r.plant.db == p.db && r.error.None?
               else
                 var reason := if action == ActionReap then "reconciler reaped expired sandbox"
                               else "reconciler destroyed container";
                 var tx := UpdateState(p.db, item.id, row.state, EndOf(row.state), reason, row.version, f.write);
                 && r.plant.db == tx.db
                 && match tx.result case Ok(_) => r.error.None? case Err(e) => r.error == Some(e)
  {
    var op := Begin(action, item).value;
    if op.CallDestroy? {
      var r := StepOp(p, item.id, op, f);
      assert Handle(p, action, item, f) == Finish(r.plant, item.id, op.andThen, f);
      FinishOfLast(r.plant, item.id, op.andThen, f);
    } else {
      assert p.cs - {item.id} == p.cs;
      FinishOfLast(p, item.id, op, f);
    }
  }

  /** Whatever fails, a row that a destroy or a reap makes terminal has no container left. */
  lemma TakenDownMeansGone(p: Plant, action: Action, item: Item, f: Faults)
    requires action == ActionDestroy || action == ActionReap
    requires item.id != "" && item.desired.Some? && item.observed == Lookup(p.cs, item.id)
    ensures var r := Handle(p, action, item, f);
            Lookup(r.plant.db.rows, item.id) != Lookup(p.db.rows, item.id) ==> item.id !in r.plant.cs
  {
    if RtDestroy(p.cs, item.id, f.destroy).result.Ok? {
      DestroyComesFirst(p, action, item, f);
    } else if Destroys(action, item) {
      FailedDestroyStops(p, action, item, f);
    } else {
      FinishOfLast(p, item.id, Begin(action, item).value, f);
    }
  }

  // ---- Dispatch and creation ----

  /** An action dispatched without the side it works on does nothing but say so. */
  lemma BadDispatchDoesNothing(p: Plant, action: Action, item: Item, f: Faults)
    requires || item.id == "" || action == ActionNone
             || (if action == ActionDestroyOrphan then item.observed.None? else item.desired.None?)
    ensures Handle(p, action, item, f) == Outcome(p, Some(ErrBadDispatch))
  {
  }

  /** A create that the runtime fails ends there, with the runtime's own error. */
  lemma FailedCreateStops(p: Plant, item: Item, spec: Spec, f: Faults)
    requires item.id != "" && item.desired.Some? && ResolveValidated(item.desired.value.spec) == Ok(spec)
    requires RtCreate(p.cs, item.id, spec, f.create).result.Err?
    ensures var r, rt := Handle(p, ActionCreate, item, f), RtCreate(p.cs, item.id, spec, f.create);
            r == Outcome(p.(cs := rt.cs), Some(rt.result.error))
  {
    var op := CallCreate(spec, item.desired.value.version);
    assert Begin(ActionCreate, item) == Ok(op);
    assert StepOp(p, item.id, op, f).error.Some?;
  }

  // ---- Every action ----

  // What is recorded when a row and its container come to their target.
  function ReasonFor(row: Row, container: Option<CState>, now: int): string {
    if now > row.expiresAt then "reconciler reaped expired sandbox"
    else if row.state == Stopping then
      if container.None? then "reconciler marked sandbox stopped" else "reconciler destroyed container"
    else if row.state == Pending && container == Some(Up) then "reconciler adopted existing container"
    else if row.state == Pending && container.None? then
      if Resolves(row.spec) then "reconciler created container"
      else "reconciler failed sandbox: spec does not resolve"
    else "reconciler marked sandbox failed"
  }

  // The event of a row that moves to its target, if it moves.
  function Recording(id: string, row: Option<Row>, container: Option<CState>, now: int): seq<Event> {
    if row.None? || Target(row, container, now).0 == row || Target(row, container, now).0.None? then []
    else
      var r := row.value;
      [Event(id, r.version + 1, r.state, Target(row, container, now).0.value.state, ReasonFor(r, container, now))]
  }

  lemma OrphanReports(p: Plant, item: Item, f: Faults)
    requires item.id != "" && item.desired.None? && item.id !in p.db.rows && item.observed.Some?
    ensures var r := Handle(p, ActionDestroyOrphan, item, f);
            r.plant.db == p.db && (r.error.None? ==> item.id !in r.plant.cs)
  {
    var op := CallDestroy(Done);
    assert Begin(ActionDestroyOrphan, item) == Ok(op);
    var r := StepOp(p, item.id, op, f);
    assert r.error.None? ==> Finish(r.plant, item.id, Done, f) == Outcome(r.plant, None);
  }

  // The reason an operation records with its write, if it writes.
  function ReasonIn(op: Op): string {
    match op
    case Mark(_, _, reason, _) => reason
    case CallDestroy(Mark(_, _, reason, _)) => reason
    case _ => "reconciler created container"
  }

  // What each action records.
  function ReasonOf(action: Action, resolves: bool): string {
    match action
    case ActionReap => "reconciler reaped expired sandbox"
    case ActionDestroy => "reconciler destroyed container"
    case ActionMarkStopped => "reconciler marked sandbox stopped"
    case ActionMarkRunning => "reconciler adopted existing container"
    case ActionMarkFailed => "reconciler marked sandbox failed"
    case _ => if resolves then "reconciler created container" else "reconciler failed sandbox: spec does not resolve"
  }

  lemma BeginsWithReason(row: Row, container: Option<CState>, id: string, action: Action, op: Op)
    requires Begin(action, Item(id, Some(row), container)) == Ok(op) && action != ActionDestroyOrphan
    ensures op != CallDestroy(Done) ==> ReasonIn(op) == ReasonOf(action, Resolves(row.spec))
  {
  }

  lemma DecidesByReason(row: Row, container: Option<CState>, now: int)
    requires !row.state.Other? && Decide(Some(row), container, now) != ActionNone && !Terminal(row.state)
    ensures ReasonOf(Decide(Some(row), container, now), Resolves(row.spec)) == ReasonFor(row, container, now)
  {
  }

  lemma ChosenReason(row: Row, container: Option<CState>, id: string, now: int, op: Op)
    requires !row.state.Other?
    requires var action := Decide(Some(row), container, now);
             action != ActionNone && Begin(action, Item(id, Some(row), container)) == Ok(op)
    ensures op != CallDestroy(Done) ==> ReasonIn(op) == ReasonFor(row, container, now)
  {
    var action := Decide(Some(row), container, now);
    BeginsWithReason(row, container, id, action, op);
    if !Terminal(row.state) {
      DecidesByReason(row, container, now);
    }
  }

  // Where an operation that reports no error has got to.
  ghost predicate Reaches(p: Plant, id: string, op: Op, r: Outcome)
    requires id in p.db.rows
  {
    var row := p.db.rows[id];
    var aim := Aim(row, Lookup(p.cs, id), op);
    && (r.error.None? ==>
          && (Lookup(r.plant.db.rows, id), Lookup(r.plant.cs, id)) == aim
          && r.plant.db.events == p.db.events +
             (if aim.0 == Some(row) then []
              else [Event(id, row.version + 1, row.state, aim.0.value.state, ReasonIn(op))]))
    && (r.error.Some? ==> r.plant.db == p.db)
  }

  lemma MarkReaches(p: Plant, id: string, op: Op, tx: Tx<Row>, f: Faults)
    requires RowSound(p.db, id) && id in p.db.rows && op.Mark? && Fits(p.db.rows[id], op)
    requires tx == UpdateState(p.db, id, op.from, op.to, op.reason, op.version, f.write)
    ensures tx.result.Err? ==> tx.db == p.db
    ensures tx.result.Ok? ==>
              && Lookup(tx.db.rows, id) == Some(p.db.rows[id].(state := op.to, version := op.version + 1))
              && tx.db.events == p.db.events + [Event(id, op.version + 1, op.from, op.to, op.reason)]
  {
    TransitionCommits(p.db, id, op.from, op.to, op.reason, op.version, f.write);
  }

  lemma MarkReports(p: Plant, id: string, op: Op, f: Faults)
    requires Sound(p.db) && id in p.db.rows && Fits(p.db.rows[id], op) && op.Mark?
    ensures Reaches(p, id, op, Finish(p, id, op, f))
  {
    var tx := UpdateState(p.db, id, op.from, op.to, op.reason, op.version, f.write);
    assert RowSound(p.db, id);
    MarkReaches(p, id, op, tx, f);
    FinishOfLast(p, id, op, f);
  }

  lemma DestroyReports(p: Plant, id: string, op: Op, f: Faults)
    requires Sound(p.db) && id in p.db.rows && Fits(p.db.rows[id], op) && op.CallDestroy?
    ensures Reaches(p, id, op, Finish(p, id, op, f))
  {
    var r := StepOp(p, id, op, f);
    if r.error.None? {
      assert Finish(p, id, op, f) == Finish(r.plant, id, op.andThen, f);
      if op.andThen.Mark? {
        MarkReports(r.plant, id, op.andThen, f);
      } else {
        FinishOfLast(r.plant, id, op.andThen, f);
      }
    }
  }

  // The write-back decides: committed, or the tables as before.
  lemma WriteBackReports(p: Plant, before: map<string, CState>, id: string, version: int, f: Faults)
    requires Sound(p.db) && id in p.db.rows && p.db.rows[id].state == Pending && p.db.rows[id].version == version
    requires id !in before && p.cs == before[id := Up]
    ensures var row := p.db.rows[id];
            var r := Finish(p, id, WriteBack(version), f);
            if r.error.None? then
              && r.plant.cs == p.cs
              && Lookup(r.plant.db.rows, id) == Some(row.(state := Running, version := version + 1))
              && r.plant.db.events ==
                 p.db.events + [Event(id, version + 1, Pending, Running, "reconciler created container")]
            else r.plant.db == p.db
  {
    WriteBackOrUndo(p, before, id, version, f);
    assert RowSound(p.db, id);
    TransitionCommits(p.db, id, Pending, Running, "reconciler created container", version, f.write);
  }

  lemma CreateReports(p: Plant, id: string, op: Op, f: Faults)
    requires Sound(p.db) && id in p.db.rows && Fits(p.db.rows[id], op) && op.CallCreate? && id !in p.cs
    ensures Reaches(p, id, op, Finish(p, id, op, f))
  {
    var r := StepOp(p, id, op, f);
    if r.error.None? {
      assert Finish(p, id, op, f) == Finish(r.plant, id, WriteBack(op.version), f);
      WriteBackReports(r.plant, p.cs, id, op.version, f);
    }
  }

  lemma OpReports(p: Plant, id: string, op: Op, f: Faults)
    requires Sound(p.db) && id in p.db.rows && Fits(p.db.rows[id], op) && (op.CallCreate? ==> id !in p.cs)
    ensures Reaches(p, id, op, Finish(p, id, op, f))
  {
    match op
    case Mark(_, _, _, _) => MarkReports(p, id, op, f);
    case CallDestroy(_) => DestroyReports(p, id, op, f);
    case CallCreate(_, _) => CreateReports(p, id, op, f);
  }

  // No error: row and container at their target, that step recorded; else the tables as
  // they were.
  ghost predicate DoneOrReported(p: Plant, id: string, now: int, r: Outcome) {
    var row, container := Lookup(p.db.rows, id), Lookup(p.cs, id);
    && (r.error.None? ==>
          && (Lookup(r.plant.db.rows, id), Lookup(r.plant.cs, id)) == Target(row, container, now)
          && r.plant.db.events == p.db.events + Recording(id, row, container, now))
    && (r.error.Some? ==> r.plant.db == p.db)
  }

  lemma ReachedIsDone(p: Plant, id: string, now: int, op: Op, r: Outcome)
    requires id in p.db.rows && Reaches(p, id, op, r)
    requires Aim(p.db.rows[id], Lookup(p.cs, id), op) == Target(Some(p.db.rows[id]), Lookup(p.cs, id), now)
    requires op == CallDestroy(Done) || ReasonIn(op) == ReasonFor(p.db.rows[id], Lookup(p.cs, id), now)
    ensures DoneOrReported(p, id, now, r)
  {
  }

  lemma RowReports(p: Plant, id: string, now: int, f: Faults)
    requires Sound(p.db) && id in p.db.rows && !p.db.rows[id].state.Other? && id != ""
    requires Decide(Some(p.db.rows[id]), Lookup(p.cs, id), now) != ActionNone
    ensures var item := ItemOf(p, id);
            DoneOrReported(p, id, now, Handle(p, Decide(item.desired, item.observed, now), item, f))
  {
    var item, row := ItemOf(p, id), p.db.rows[id];
    var action := Decide(item.desired, item.observed, now);
    DecisionsDispatch(item, now);
    var op := Begin(action, item).value;
    ChosenOpAimsAtTarget(row, Lookup(p.cs, id), id, now, op);
    ChosenReason(row, Lookup(p.cs, id), id, now, op);
    OpReports(p, id, op, f);
    ReachedIsDone(p, id, now, op, Finish(p, id, op, f));
  }

  /** No error means done: an action that reports none, whatever failed on the way, has taken
      row and container to their target and recorded that one step; an action that reports
      one has left row and history alone. */
  lemma NoErrorMeansDone(p: Plant, id: string, now: int, f: Faults)
    requires Sound(p.db) && ValidSandboxID(id) && (id in p.db.rows || id in p.cs)
    requires var item := ItemOf(p, id); Decide(item.desired, item.observed, now) != ActionNone
    ensures var item := ItemOf(p, id);
            DoneOrReported(p, id, now, Handle(p, Decide(item.desired, item.observed, now), item, f))
  {
    var item := ItemOf(p, id);
    var action := Decide(item.desired, item.observed, now);
    assert |id| == 40;
    if id !in p.db.rows {
      OrphanReports(p, item, f);
    } else {
      NoOtherStates(p, id);
      RowReports(p, id, now, f);
    }
  }

  // ---- The report of a pass ----

  // The decisions on a list of items, without carrying any of them out.
  function Decisions(items: seq<Item>, now: int): seq<Action> {
    if items == [] then []
    else
      var last := items[|items| - 1];
      var action := Decide(last.desired, last.observed, now);
      Decisions(items[..|items| - 1], now) + (if action == ActionNone then [] else [action])
  }

  /** A pass reports its decisions, all of them, in visiting order, whichever of them failed. */
  lemma {:induction false} PassReportsDecisions(p: Plant, items: seq<Item>, now: int, plan: Plan)
    ensures RunPass(p, items, now, plan).actions == Decisions(items, now)
    decreases |items|
  {
    if items != [] {
      var front, last := items[..|items| - 1], items[|items| - 1];
      PassReportsDecisions(p, front, now, plan);
      PassOverOneMore(p, front, last, now, plan);
      assert items == front + [last];
    }
  }

  function Cell(state: TaskState, container: Option<CState>): Action {
    match (state, container)
    case (Pending, None) => ActionCreate
    case (Pending, Some(Up)) => ActionMarkRunning
    case (Pending, Some(Exited)) => ActionMarkFailed
    case (Running, Some(Up)) => ActionNone
    case (Running, _) => ActionMarkFailed
    case (Stopping, None) => ActionMarkStopped
    case (Stopping, Some(_)) => ActionDestroy
    case _ => ActionNone
  }

  /** The documented table, cell by cell: an expired row that is not over is reaped whatever
      the runtime shows; otherwise state and container pick the action. */
  lemma DecisionTable(row: Row, container: Option<CState>, now: int)
    ensures Decide(None, None, now) == ActionNone
    ensures container.Some? ==> Decide(None, container, now) == ActionDestroyOrphan
    ensures row.state in {Pending, Running, Stopping} && now > row.expiresAt ==>
              Decide(Some(row), container, now) == ActionReap
    ensures row.state in {Pending, Running, Stopping} && now <= row.expiresAt ==>
              Decide(Some(row), container, now) == Cell(row.state, container)
    ensures row.state.Other? ==>
              Decide(Some(row), container, now) == if now > row.expiresAt then ActionReap else ActionNone
    ensures row.state in {Stopped, Failed} ==>
              Decide(Some(row), container, now) == if container.None? then ActionNone else ActionDestroy
  {
  }
}
