/** The decision table and what each action does, operation by operation
    (internal/reconciler/reconciler.go). */
module Decision {
  import opened Wrappers
  import opened Lifecycle
  import opened SpecResolve
  import opened Tables
  import opened RuntimeMap

  datatype Action =
    | ActionNone
    | ActionCreate
    | ActionDestroy
    | ActionDestroyOrphan
    | ActionReap
    | ActionMarkFailed
    | ActionMarkStopped
    | ActionMarkRunning

  // One sandbox as a pass sees it; at least one side is present.
  datatype Item = Item(id: string, desired: Option<Row>, observed: Option<CState>)

  function Decide(desired: Option<Row>, observed: Option<CState>, now: int): Action {
    if desired.None? then
      if observed.None? then ActionNone else ActionDestroyOrphan
    else
      var row := desired.value;
      if !Terminal(row.state) && now > row.expiresAt then ActionReap
      else
        match row.state
        case Pending =>
          if observed.None? then ActionCreate
          else if observed.value == Exited then ActionMarkFailed
          else ActionMarkRunning
        case Running =>
          if observed.None? || observed.value == Exited then ActionMarkFailed else ActionNone
        case Stopping =>
          if observed.None? then ActionMarkStopped else ActionDestroy
        case Stopped => if observed.None? then ActionNone else ActionDestroy
        case Failed => if observed.None? then ActionNone else ActionDestroy
        case Other(_) => ActionNone
  }

  // The side effects left to perform for one item; each is one call on the store or
  // the runtime, between which anything else may run.
  datatype Op =
    | Done
    | CallCreate(spec: Spec, version: int)
    | WriteBack(version: int)
    | Undo(cause: Error)
    | CallDestroy(andThen: Op)
    | Mark(from: TaskState, to: TaskState, reason: string, version: int)

  function Rank(op: Op): nat {
    match op
    case Done => 0
    case CallCreate(_, _) => 3
    case WriteBack(_) => 2
    case Undo(_) => 1
    case CallDestroy(next) => 1 + Rank(next)
    case Mark(_, _, _, _) => 1
  }

  /** handleAction up to its first call: the dispatch checks and the switch. */
  function Begin(action: Action, item: Item): Result<Op> {
    if action == ActionDestroyOrphan then
      if item.observed.None? || item.id == "" then Err(ErrBadDispatch) else Ok(CallDestroy(Done))
    else if item.desired.None? || item.id == "" then Err(ErrBadDispatch)
    else
      var row := item.desired.value;
      match action
      case ActionCreate =>
        (match ResolveValidated(row.spec)
         case Err(_) => Ok(Mark(row.state, Failed, "reconciler failed sandbox: spec does not resolve", row.version))
         case Ok(spec) => Ok(CallCreate(spec, row.version)))
      case ActionDestroy =>
        Ok(CallDestroy(
             if row.state == Stopping then Mark(row.state, Stopped, "reconciler destroyed container", row.version)
             else Done))
      case ActionReap =>
        var to := if row.state == Stopping then Stopped else Failed;
        var mark := Mark(row.state, to, "reconciler reaped expired sandbox", row.version);
        Ok(if item.observed.Some? then CallDestroy(mark) else mark)
      case ActionMarkFailed => Ok(Mark(row.state, Failed, "reconciler marked sandbox failed", row.version))
      case ActionMarkStopped => Ok(Mark(row.state, Stopped, "reconciler marked sandbox stopped", row.version))
      case ActionMarkRunning => Ok(Mark(row.state, Running, "reconciler adopted existing container", row.version))
      case ActionDestroyOrphan => Err(ErrBadDispatch)
      case ActionNone => Err(ErrBadDispatch)
  }

  // Desired and actual state together: the tables and the containers.
  datatype Plant = Plant(db: DB, cs: map<string, CState>)

  // How the calls made for one item fail; an item makes at most one of each.
  datatype Faults = Faults(create: CreateFault, write: Fault, destroy: DestroyFault)

  const NO_FAULTS := Faults(FINE, NoFault, HEALTHY)

  datatype Progress = Progress(plant: Plant, next: Op, error: Option<Error>)

  /** One call for item id. */
  function StepOp(p: Plant, id: string, op: Op, f: Faults): (r: Progress)
    ensures op != Done ==> Rank(r.next) < Rank(op)
    ensures r.error.Some? ==> r.next == Done
  {
    match op
    case Done => Progress(p, Done, None)
    case CallCreate(spec, version) =>
      var rt := RtCreate(p.cs, id, spec, f.create);
      (match rt.result
       case Err(e) => Progress(p.(cs := rt.cs), Done, Some(e))
       case Ok(_) => Progress(p.(cs := rt.cs), WriteBack(version), None))
    case WriteBack(version) =>
      var tx := UpdateState(p.db, id, Pending, Running, "reconciler created container", version, f.write);
      (match tx.result
       case Err(e) => Progress(p.(db := tx.db), Undo(e), None)
       case Ok(_) => Progress(p.(db := tx.db), Done, None))
    case Undo(cause) =>
      var rt := RtDestroy(p.cs, id, f.destroy);
      (match rt.result
       case Err(e) => Progress(p.(cs := rt.cs), Done, Some(ErrNotUndone(cause, e)))
       case Ok(_) => Progress(p.(cs := rt.cs), Done, Some(ErrUndone(cause))))
    case CallDestroy(next) =>
      var rt := RtDestroy(p.cs, id, f.destroy);
      (match rt.result
       case Err(e) => Progress(p.(cs := rt.cs), Done, Some(e))
       case Ok(_) => Progress(p.(cs := rt.cs), next, None))
    case Mark(from, to, reason, version) =>
      var tx := UpdateState(p.db, id, from, to, reason, version, f.write);
      (match tx.result
       case Err(e) => Progress(p.(db := tx.db), Done, Some(e))
       case Ok(_) => Progress(p.(db := tx.db), Done, None))
  }

  datatype Outcome = Outcome(plant: Plant, error: Option<Error>)

  /** All calls of one item, nothing running in between. */
  function Finish(p: Plant, id: string, op: Op, f: Faults): Outcome
    decreases Rank(op)
  {
    if op == Done then Outcome(p, None)
    else
      var r := StepOp(p, id, op, f);
      if r.error.Some? then Outcome(r.plant, r.error) else Finish(r.plant, id, r.next, f)
  }

  function Handle(p: Plant, action: Action, item: Item, f: Faults): Outcome {
    match Begin(action, item)
    case Err(e) => Outcome(p, Some(e))
    case Ok(op) => Finish(p, item.id, op, f)
  }

  // The faults that strike each id during a pass.
  type Plan = map<string, Faults>

  function FaultsFor(plan: Plan, id: string): Faults {
    if id in plan then plan[id] else NO_FAULTS
  }

  datatype PassResult = PassResult(plant: Plant, actions: seq<Action>)

  /** The loop of a pass: decide and handle each item; a failed item is only logged. */
  function RunPass(p: Plant, items: seq<Item>, now: int, plan: Plan): PassResult
    decreases |items|
  {
    if items == [] then PassResult(p, [])
    else
      var item := items[0];
      var action := Decide(item.desired, item.observed, now);
      if action == ActionNone then RunPass(p, items[1..], now, plan)
      else
        var rest := RunPass(Handle(p, action, item, FaultsFor(plan, item.id)).plant, items[1..], now, plan);
        PassResult(rest.plant, [action] + rest.actions)
  }

  /** The declarative outer join: every id of either side exactly once, with what each
      side holds for it. */
  ghost predicate OuterJoin(rows: map<string, Row>, cs: map<string, CState>, items: seq<Item>) {
    && (forall i, j :: 0 <= i < j < |items| ==> items[i].id != items[j].id)
    && (forall i :: 0 <= i < |items| ==>
          && (items[i].id in rows || items[i].id in cs)
          && items[i].desired == Lookup(rows, items[i].id)
          && items[i].observed == Lookup(cs, items[i].id))
    && (forall id :: id in rows || id in cs ==> exists i :: 0 <= i < |items| && items[i].id == id)
  }
}
