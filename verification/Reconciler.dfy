/** The reconciler over the real store and the Docker backend
    (internal/reconciler/reconciler.go). */
module Reconciler {
  import opened Wrappers
  import opened Lifecycle
  import opened SpecResolve
  import opened Tables
  import opened Decision
  import opened Join
  import opened Passes
  import opened SqliteStore
  import opened Docker

  // What fails during one pass: either listing, or calls made for single items.
  datatype PassFaults = PassFaults(listRows: bool, listContainers: bool, plan: Plan)

  /** The pass over the outer join of the rows and containers it started from. */
  ghost predicate PassDone(p: Plant, now: int, plan: Plan, result: PassResult) {
    exists items :: OuterJoin(p.db.rows, p.cs, items) && StrictlySorted(items) && result == RunPass(p, items, now, plan)
  }

  lemma FinishUnfolds(p: Plant, id: string, op: Op, f: Faults)
    requires op != Done
    ensures var r := StepOp(p, id, op, f);
            Finish(p, id, op, f) == if r.error.Some? then Outcome(r.plant, r.error) else Finish(r.plant, id, r.next, f)
  {
  }

  lemma FinishMarks(p: Plant, id: string, row: Row, to: TaskState, reason: string, f: Faults)
    ensures var tx := UpdateState(p.db, id, row.state, to, reason, row.version, f.write);
            (Finish(p, id, Mark(row.state, to, reason, row.version), f)
             == Outcome(p.(db := tx.db), match tx.result case Ok(_) => None case Err(e) => Some(e)))
  {
  }

  lemma SameContainer(p: Plant, q: Plant, id: string)
    requires ViewOf(p, id) == ViewOf(q, id)
    ensures Lookup(p.cs, id) == Lookup(q.cs, id)
  {
  }

  // An item not yet visited still has the container the listing showed, or none.
  lemma UntouchedSoFar(p: Plant, items: seq<Item>, k: nat, now: int, plan: Plan)
    requires k < |items| && OuterJoin(p.db.rows, p.cs, items)
    ensures Lookup(RunPass(p, items[..k], now, plan).plant.cs, items[k].id) == items[k].observed
  {
    PassIsPointwise(p, items[..k], now, plan, items[k].id);
    SameContainer(p, RunPass(p, items[..k], now, plan).plant, items[k].id);
  }

  lemma NextItem(p: Plant, items: seq<Item>, k: nat, now: int, plan: Plan)
    requires k < |items|
    ensures var a := RunPass(p, items[..k], now, plan);
            RunPass(p, items[..k + 1], now, plan) == AfterItem(a.plant, a.actions, items[k], now, plan)
  {
    assert items[..k + 1] == items[..k] + [items[k]];
    PassOverOneMore(p, items[..k], items[k], now, plan);
  }

  class Reconciler {
    const store: Store
    const runtime: Runtime
    var locked: bool

    constructor (store: Store, runtime: Runtime)
      ensures this.store == store && this.runtime == runtime && !locked
    {
      this.store, this.runtime, locked := store, runtime, false;
    }

    ghost function State(): Plant
      reads store, runtime.daemon
    {
      Plant(store.Db(), runtime.Abs())
    }

    // The guarded transition every writing action ends in.
    method MarkRow(id: string, row: Row, to: TaskState, reason: string, fault: Fault) returns (error: Option<Error>)
      modifies store
      ensures var tx := UpdateState(old(store.Db()), id, row.state, to, reason, row.version, fault);
              store.Db() == tx.db && error == (match tx.result case Ok(_) => None case Err(e) => Some(e))
    {
      var r := store.UpdateSandboxState(id, row.state, to, reason, row.version, fault);
      return if r.Err? then Some(r.error) else None;
    }

    // The write-back of a create, and the destroy that undoes the create without it.
    method RecordRunning(id: string, version: int, f: Faults) returns (error: Option<Error>)
      requires runtime.daemon.Valid()
      modifies store, runtime.daemon
      ensures runtime.daemon.Valid()
      ensures var r := Finish(old(State()), id, WriteBack(version), f); store.Db() == r.plant.db && error == r.error
      ensures old(runtime.Valid()) ==>
                runtime.Valid() && Outcome(State(), error) == Finish(old(State()), id, WriteBack(version), f)
      ensures Strangers(runtime.daemon.containers) == old(Strangers(runtime.daemon.containers))
    {
      FinishUnfolds(State(), id, WriteBack(version), f);
      var wrote := store.UpdateSandboxState(id, Pending, Running, "reconciler created container", version, f.write);
      if wrote.Ok? {
        return None;
      }
      FinishUnfolds(State(), id, Undo(wrote.error), f);
      var undone := runtime.Destroy(id, f.destroy);
      if undone.Err? {
        return Some(ErrNotUndone(wrote.error, undone.error));
      }
      return Some(ErrUndone(wrote.error));
    }

    method HandleCreate(item: Item, f: Faults) returns (error: Option<Error>)
      requires runtime.Valid() && item.desired.Some? && item.id != ""
      modifies store, runtime.daemon
      ensures runtime.daemon.Valid()
      ensures var r := Handle(old(State()), ActionCreate, item, f); store.Db() == r.plant.db && error == r.error
      ensures old(item.id !in runtime.Abs()) ==>
                runtime.Valid() && Outcome(State(), error) == Handle(old(State()), ActionCreate, item, f)
      ensures Strangers(runtime.daemon.containers) == old(Strangers(runtime.daemon.containers))
    {
      var row := item.desired.value;
      var resolved := ResolveValidated(row.spec);
      if resolved.Err? {
        FinishMarks(State(), item.id, row, Failed, "reconciler failed sandbox: spec does not resolve", f);
        error := MarkRow(item.id, row, Failed, "reconciler failed sandbox: spec does not resolve", f.write);
        return;
      }
      FinishUnfolds(State(), item.id, CallCreate(resolved.value, row.version), f);
      var made := runtime.Create(item.id, resolved.value, f.create);
      if made.Err? {
        return Some(made.error);
      }
      error := RecordRunning(item.id, row.version, f);
    }

    method HandleDestroy(item: Item, f: Faults) returns (error: Option<Error>)
      requires runtime.Valid() && item.desired.Some? && item.id != ""
      modifies store, runtime.daemon
      ensures runtime.Valid()
      ensures Outcome(State(), error) == Handle(old(State()), ActionDestroy, item, f)
      ensures Strangers(runtime.daemon.containers) == old(Strangers(runtime.daemon.containers))
    {
      var row := item.desired.value;
      ghost var mark := Mark(row.state, Stopped, "reconciler destroyed container", row.version);
      FinishUnfolds(State(), item.id, CallDestroy(if row.state == Stopping then mark else Done), f);
      var gone := runtime.Destroy(item.id, f.destroy);
      if gone.Err? {
        return Some(gone.error);
      }
      if row.state == Stopping {
        FinishMarks(State(), item.id, row, Stopped, "reconciler destroyed container", f);
        error := MarkRow(item.id, row, Stopped, "reconciler destroyed container", f.write);
        return;
      }
      return None;
    }

    method HandleReap(item: Item, f: Faults) returns (error: Option<Error>)
      requires runtime.Valid() && item.desired.Some? && item.id != ""
      modifies store, runtime.daemon
      ensures runtime.Valid()
      ensures Outcome(State(), error) == Handle(old(State()), ActionReap, item, f)
      ensures Strangers(runtime.daemon.containers) == old(Strangers(runtime.daemon.containers))
    {
      var row := item.desired.value;
      var to := Failed;
      if row.state == Stopping {
        to := Stopped;
      }
      ghost var mark := Mark(row.state, to, "reconciler reaped expired sandbox", row.version);
      FinishUnfolds(State(), item.id, CallDestroy(mark), f);
      if item.observed.Some? {
        var gone := runtime.Destroy(item.id, f.destroy);
        if gone.Err? {
          return Some(gone.error);
        }
      }
      FinishMarks(State(), item.id, row, to, "reconciler reaped expired sandbox", f);
      error := MarkRow(item.id, row, to, "reconciler reaped expired sandbox", f.write);
    }

    /** Uninterrupted, an action's calls add up to exactly the operations the decision
        calls for, whatever fails among them. */
    method HandleAction(action: Action, item: Item, f: Faults) returns (error: Option<Error>)
      requires runtime.Valid()
      modifies store, runtime.daemon
      ensures runtime.daemon.Valid()
      ensures var r := Handle(old(State()), action, item, f); store.Db() == r.plant.db && error == r.error
      ensures old(action != ActionCreate || item.id !in runtime.Abs()) ==>
                runtime.Valid() && Outcome(State(), error) == Handle(old(State()), action, item, f)
      ensures Strangers(runtime.daemon.containers) == old(Strangers(runtime.daemon.containers))
    {
      if action == ActionDestroyOrphan {
        if item.observed.None? || item.id == "" {
          return Some(ErrBadDispatch);
        }
      } else if item.desired.None? || item.id == "" {
        return Some(ErrBadDispatch);
      }
      match action {
        case ActionCreate =>
          error := HandleCreate(item, f);
        case ActionDestroy =>
          error := HandleDestroy(item, f);
        case ActionDestroyOrphan =>
          FinishUnfolds(State(), item.id, CallDestroy(Done), f);
          var gone := runtime.Destroy(item.id, f.destroy);
          return if gone.Err? then Some(gone.error) else None;
        case ActionReap =>
          error := HandleReap(item, f);
        case ActionMarkFailed =>
          FinishMarks(State(), item.id, item.desired.value, Failed, "reconciler marked sandbox failed", f);
          error := MarkRow(item.id, item.desired.value, Failed, "reconciler marked sandbox failed", f.write);
        case ActionMarkStopped =>
          FinishMarks(State(), item.id, item.desired.value, Stopped, "reconciler marked sandbox stopped", f);
          error := MarkRow(item.id, item.desired.value, Stopped, "reconciler marked sandbox stopped", f.write);
        case ActionMarkRunning =>
          FinishMarks(State(), item.id, item.desired.value, Running, "reconciler adopted existing container", f);
          error := MarkRow(item.id, item.desired.value, Running, "reconciler adopted existing container", f.write);
        case ActionNone =>
          return Some(ErrBadDispatch);
      }
    }

    // One item: decide, handle, and go on whatever came of it.
    method Visit(item: Item, now: int, plan: Plan, done: seq<Action>) returns (actions: seq<Action>)
      requires runtime.Valid()
      requires Lookup(runtime.Abs(), item.id) == item.observed
      modifies store, runtime.daemon
      ensures runtime.Valid()
      ensures Strangers(runtime.daemon.containers) == old(Strangers(runtime.daemon.containers))
      ensures PassResult(State(), actions) == AfterItem(old(State()), done, item, now, plan)
    {
      actions := done;
      var action := Decide(item.desired, item.observed, now);
      if action != ActionNone {
        assert action == ActionCreate ==> item.observed.None?;
        var error := HandleAction(action, item, FaultsFor(plan, item.id));
        actions := actions + [action];
      }
    }

    // The loop over the joined items.
    method PassOver(items: seq<Item>, now: int, plan: Plan) returns (actions: seq<Action>)
      requires runtime.Valid()
      requires OuterJoin(store.rows, runtime.Abs(), items)
      modifies store, runtime.daemon
      ensures runtime.Valid()
      ensures Strangers(runtime.daemon.containers) == old(Strangers(runtime.daemon.containers))
      ensures PassResult(State(), actions) == RunPass(old(State()), items, now, plan)
    {
      actions := [];
      ghost var start := State();
      for k := 0 to |items|
        invariant runtime.Valid()
        invariant Strangers(runtime.daemon.containers) == old(Strangers(runtime.daemon.containers))
        invariant PassResult(State(), actions) == RunPass(start, items[..k], now, plan)
      {
        UntouchedSoFar(start, items, k, now, plan);
        NextItem(start, items, k, now, plan);
        actions := Visit(items[k], now, plan, actions);
      }
      assert items[..|items|] == items;
    }

    /** One pass, end to end.  It refuses to overlap another; a failed listing ends it
        before any change; otherwise it does to the store and to Docker exactly what the
        pass over the outer join of both listings says, strangers untouched, and still at
        most one container per sandbox. */
    method ReconcileOnce(now: int, f: PassFaults) returns (r: Result<seq<Action>>)
      requires runtime.Valid()
      modifies `locked, store, runtime.daemon
      ensures runtime.Valid() && locked == old(locked)
      ensures Strangers(runtime.daemon.containers) == old(Strangers(runtime.daemon.containers))
      ensures old(locked) ==> r == Err(ErrPassInFlight)
      ensures !old(locked) && f.listRows ==> r == Err(ErrDatabase)
      ensures !old(locked) && !f.listRows && f.listContainers ==> r == Err(ErrDaemon)
      ensures r.Err? ==> State() == old(State())
      ensures !old(locked) && !f.listRows && !f.listContainers ==>
                r.Ok? && PassDone(old(State()), now, f.plan, PassResult(State(), r.value))
    {
      if locked {
        return Err(ErrPassInFlight);
      }
      locked := true;
      var sbxs := store.GetSandboxes(f.listRows);
      if sbxs.Err? {
        locked := false;
        return Err(ErrDatabase);
      }
      var infos := runtime.List(f.listContainers);
      if infos.Err? {
        locked := false;
        return Err(ErrDaemon);
      }
      var items := PairSnapshots(sbxs.value, infos.value);
      var actions := PassOver(items, now, f.plan);
      locked := false;
      return Ok(actions);
    }
  }
}
