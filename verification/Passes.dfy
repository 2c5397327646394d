/** Whole passes: isolation, independence of the visiting order, convergence and
    reaping. */
module Passes {
  import opened Wrappers
  import opened Lifecycle
  import opened SpecResolve
  import opened Tables
  import opened RuntimeMap
  import opened Decision

  // Everything there is to know about one sandbox.
  datatype View = View(row: Option<Row>, history: seq<Event>, container: Option<CState>)

  function ViewOf(p: Plant, id: string): View {
    View(Lookup(p.db.rows, id), History(p.db.events, id), Lookup(p.cs, id))
  }

  // ---- Isolation ----

  lemma UpdateStateIsLocal(db: DB, id: string, from: TaskState, to: TaskState, reason: string, version: int, f: Fault,
      other: string)
    requires other != id
    ensures var db' := UpdateState(db, id, from, to, reason, version, f).db;
            Lookup(db'.rows, other) == Lookup(db.rows, other) && History(db'.events, other) == History(db.events, other)
  {
  }

  // Two attempts to append that agree about one sandbox.
  predicate SameLog(log1: Result<seq<Event>>, log2: Result<seq<Event>>, id: string) {
    if log1.Ok? then log2.Ok? && History(log1.value, id) == History(log2.value, id)
    else log2.Err? && log1.error == log2.error
  }

  lemma AppendReadsLocal(events1: seq<Event>, events2: seq<Event>, e: Event, f: Fault)
    requires History(events1, e.sandboxID) == History(events2, e.sandboxID)
    ensures SameLog(AppendEvent(events1, e, f), AppendEvent(events2, e, f), e.sandboxID)
  {
    RecordedInHistory(events1, e.sandboxID, e.version);
    RecordedInHistory(events2, e.sandboxID, e.version);
    HistoryOfAppend(events1, e, e.sandboxID);
    HistoryOfAppend(events2, e, e.sandboxID);
  }

  lemma CommitReadsLocal(db1: DB, db2: DB, id: string, row: Row, log1: Result<seq<Event>>, log2: Result<seq<Event>>,
      f: Fault)
    requires Lookup(db1.rows, id) == Lookup(db2.rows, id) && History(db1.events, id) == History(db2.events, id)
    requires SameLog(log1, log2, id)
    ensures var tx1, tx2 := CommitRow(db1, id, row, log1, f), CommitRow(db2, id, row, log2, f);
            && tx1.result == tx2.result
            && Lookup(tx1.db.rows, id) == Lookup(tx2.db.rows, id)
            && History(tx1.db.events, id) == History(tx2.db.events, id)
  {
  }

  // A guarded write that found its row as observed.
  lemma HitCommits(db: DB, id: string, row: Row, to: TaskState, reason: string, f: Fault)
    requires id in db.rows && db.rows[id] == row && Legal(row.state, to) && !f.AtBegin? && !f.AtStatement?
    ensures UpdateState(db, id, row.state, to, reason, row.version, f)
         == CommitRow(db, id, row.(state := to, version := row.version + 1),
                      AppendEvent(db.events, Event(id, row.version + 1, row.state, to, reason), f), f)
  {
  }

  // One that did not, or never got so far.
  lemma MissReadsLocal(db1: DB, db2: DB, id: string, from: TaskState, to: TaskState, reason: string, version: int,
      f: Fault)
    requires Lookup(db1.rows, id) == Lookup(db2.rows, id)
    requires f.AtBegin? || f.AtStatement? || !Legal(from, to)
          || !(id in db1.rows && db1.rows[id].state == from && db1.rows[id].version == version)
    ensures UpdateState(db1, id, from, to, reason, version, f).result
              == UpdateState(db2, id, from, to, reason, version, f).result
    ensures UpdateState(db1, id, from, to, reason, version, f).db == db1
    ensures UpdateState(db2, id, from, to, reason, version, f).db == db2
  {
    assert id in db1.rows <==> id in db2.rows;
  }

  lemma UpdateStateReadsLocal(db1: DB, db2: DB, id: string, from: TaskState, to: TaskState, reason: string,
      version: int, f: Fault)
    requires Lookup(db1.rows, id) == Lookup(db2.rows, id) && History(db1.events, id) == History(db2.events, id)
    ensures var tx1, tx2 := UpdateState(db1, id, from, to, reason, version, f),
              UpdateState(db2, id, from, to, reason, version, f);
            && tx1.result == tx2.result
            && Lookup(tx1.db.rows, id) == Lookup(tx2.db.rows, id)
            && History(tx1.db.events, id) == History(tx2.db.events, id)
  {
    var hit := id in db1.rows && db1.rows[id].state == from && db1.rows[id].version == version;
    if Legal(from, to) && !f.AtBegin? && !f.AtStatement? && hit {
      var row, e := db1.rows[id], Event(id, version + 1, from, to, reason);
      assert id in db2.rows && db2.rows[id] == row;
      HitCommits(db1, id, row, to, reason, f);
      HitCommits(db2, id, row, to, reason, f);
      AppendReadsLocal(db1.events, db2.events, e, f);
      CommitReadsLocal(db1, db2, id, row.(state := to, version := version + 1),
        AppendEvent(db1.events, e, f), AppendEvent(db2.events, e, f), f);
    } else {
      MissReadsLocal(db1, db2, id, from, to, reason, version, f);
    }
  }

  lemma StepOpIsLocal(p: Plant, id: string, op: Op, f: Faults, other: string)
    requires other != id
    ensures ViewOf(StepOp(p, id, op, f).plant, other) == ViewOf(p, other)
  {
    match op
    case WriteBack(version) =>
      UpdateStateIsLocal(p.db, id, Pending, Running, "reconciler created container", version, f.write, other);
    case Mark(from, to, reason, version) =>
      UpdateStateIsLocal(p.db, id, from, to, reason, version, f.write, other);
    case _ =>
  }

  lemma CreateReadsLocal(a: map<string, CState>, b: map<string, CState>, id: string, spec: Spec, f: CreateFault)
    requires Lookup(a, id) == Lookup(b, id)
    ensures RtCreate(a, id, spec, f).result == RtCreate(b, id, spec, f).result
    ensures Lookup(RtCreate(a, id, spec, f).cs, id) == Lookup(RtCreate(b, id, spec, f).cs, id)
  {
  }

  lemma DestroyReadsLocal(a: map<string, CState>, b: map<string, CState>, id: string, f: DestroyFault)
    requires Lookup(a, id) == Lookup(b, id)
    ensures RtDestroy(a, id, f).result == RtDestroy(b, id, f).result
    ensures Lookup(RtDestroy(a, id, f).cs, id) == Lookup(RtDestroy(b, id, f).cs, id)
  {
  }

  lemma WriteReadsLocal(p: Plant, q: Plant, id: string, op: Op, f: Faults)
    requires ViewOf(p, id) == ViewOf(q, id) && (op.WriteBack? || op.Mark?)
    ensures var a, b := StepOp(p, id, op, f), StepOp(q, id, op, f);
            ViewOf(a.plant, id) == ViewOf(b.plant, id) && a.next == b.next && a.error == b.error
  {
    match op
    case WriteBack(version) =>
      UpdateStateReadsLocal(p.db, q.db, id, Pending, Running, "reconciler created container", version, f.write);
    case Mark(from, to, reason, version) =>
      UpdateStateReadsLocal(p.db, q.db, id, from, to, reason, version, f.write);
  }

  lemma RuntimeReadsLocal(p: Plant, q: Plant, id: string, op: Op, f: Faults)
    requires ViewOf(p, id) == ViewOf(q, id) && (op.CallCreate? || op.Undo? || op.CallDestroy?)
    ensures var a, b := StepOp(p, id, op, f), StepOp(q, id, op, f);
            ViewOf(a.plant, id) == ViewOf(b.plant, id) && a.next == b.next && a.error == b.error
  {
    match op
    case CallCreate(spec, _) => CreateReadsLocal(p.cs, q.cs, id, spec, f.create);
    case Undo(_) => DestroyReadsLocal(p.cs, q.cs, id, f.destroy);
    case CallDestroy(_) => DestroyReadsLocal(p.cs, q.cs, id, f.destroy);
  }

  lemma StepOpReadsLocal(p: Plant, q: Plant, id: string, op: Op, f: Faults)
    requires ViewOf(p, id) == ViewOf(q, id)
    ensures var a, b := StepOp(p, id, op, f), StepOp(q, id, op, f);
            ViewOf(a.plant, id) == ViewOf(b.plant, id) && a.next == b.next && a.error == b.error
  {
    if op.WriteBack? || op.Mark? {
      WriteReadsLocal(p, q, id, op, f);
    } else if op != Done {
      RuntimeReadsLocal(p, q, id, op, f);
    }
  }

  lemma {:induction false} FinishIsLocal(p: Plant, id: string, op: Op, f: Faults, other: string)
    requires other != id
    ensures ViewOf(Finish(p, id, op, f).plant, other) == ViewOf(p, other)
    decreases Rank(op)
  {
    if op != Done {
      StepOpIsLocal(p, id, op, f, other);
      var r := StepOp(p, id, op, f);
      if r.error.None? {
        FinishIsLocal(r.plant, id, r.next, f, other);
      }
    }
  }

  lemma {:induction false} FinishReadsLocal(p: Plant, q: Plant, id: string, op: Op, f: Faults)
    requires ViewOf(p, id) == ViewOf(q, id)
    ensures var a, b := Finish(p, id, op, f), Finish(q, id, op, f);
            ViewOf(a.plant, id) == ViewOf(b.plant, id) && a.error == b.error
    decreases Rank(op)
  {
    if op != Done {
      StepOpReadsLocal(p, q, id, op, f);
      var a, b := StepOp(p, id, op, f), StepOp(q, id, op, f);
      if a.error.None? {
        FinishReadsLocal(a.plant, b.plant, id, a.next, f);
      }
    }
  }

  // What one item's turn does, decision included.
  function Turn(p: Plant, item: Item, now: int, plan: Plan): Plant {
    var action := Decide(item.desired, item.observed, now);
    if action == ActionNone then p else Handle(p, action, item, FaultsFor(plan, item.id)).plant
  }

  lemma TurnIsLocal(p: Plant, item: Item, now: int, plan: Plan, other: string)
    requires other != item.id
    ensures ViewOf(Turn(p, item, now, plan), other) == ViewOf(p, other)
  {
    var action := Decide(item.desired, item.observed, now);
    if action != ActionNone && Begin(action, item).Ok? {
      FinishIsLocal(p, item.id, Begin(action, item).value, FaultsFor(plan, item.id), other);
    }
  }

  lemma TurnReadsLocal(p: Plant, q: Plant, item: Item, now: int, plan: Plan, plan': Plan)
    requires ViewOf(p, item.id) == ViewOf(q, item.id)
    requires FaultsFor(plan, item.id) == FaultsFor(plan', item.id)
    ensures ViewOf(Turn(p, item, now, plan), item.id) == ViewOf(Turn(q, item, now, plan'), item.id)
  {
    var action := Decide(item.desired, item.observed, now);
    if action != ActionNone && Begin(action, item).Ok? {
      FinishReadsLocal(p, q, item.id, Begin(action, item).value, FaultsFor(plan, item.id));
    }
  }

  ghost predicate DistinctIds(items: seq<Item>) {
    forall i, j :: 0 <= i < j < |items| ==> items[i].id != items[j].id
  }

  /** What a pass leaves for an id is what that id's own turn, taken on the starting
      plant, would leave: a pass acts on each id using only that id's data. */
  lemma {:induction false} PassIsPointwise(p: Plant, items: seq<Item>, now: int, plan: Plan, id: string)
    requires DistinctIds(items)
    ensures forall i :: 0 <= i < |items| && items[i].id == id ==>
              ViewOf(RunPass(p, items, now, plan).plant, id) == ViewOf(Turn(p, items[i], now, plan), id)
    ensures (forall i :: 0 <= i < |items| ==> items[i].id != id) ==>
              ViewOf(RunPass(p, items, now, plan).plant, id) == ViewOf(p, id)
    decreases |items|
  {
    if items != [] {
      var item, rest := items[0], items[1..];
      var p' := Turn(p, item, now, plan);
      assert RunPass(p, items, now, plan).plant == RunPass(p', rest, now, plan).plant;
      PassIsPointwise(p', rest, now, plan, id);
      if item.id == id {
        assert forall i :: 0 <= i < |rest| ==> rest[i].id != id;
      } else {
        TurnIsLocal(p, item, now, plan, id);
        forall i | 0 <= i < |items| && items[i].id == id
          ensures ViewOf(RunPass(p, items, now, plan).plant, id) == ViewOf(Turn(p, items[i], now, plan), id)
        {
          assert items[i] == rest[i - 1];
          TurnReadsLocal(p', p, items[i], now, plan, plan);
        }
      }
    }
  }

  /** The order of the items and the failures of other items do not matter: two passes
      over one snapshot agree on every id that meets the same faults in both. */
  lemma PassIgnoresOrderAndOtherFaults(p: Plant, items: seq<Item>, items': seq<Item>, now: int, plan: Plan,
      plan': Plan, id: string)
    requires DistinctIds(items) && DistinctIds(items')
    requires forall it :: it in items <==> it in items'
    requires FaultsFor(plan, id) == FaultsFor(plan', id)
    ensures ViewOf(RunPass(p, items, now, plan).plant, id) == ViewOf(RunPass(p, items', now, plan').plant, id)
  {
    PassIsPointwise(p, items, now, plan, id);
    PassIsPointwise(p, items', now, plan', id);
    if i :| 0 <= i < |items| && items[i].id == id {
      assert items[i] in items';
      var j :| 0 <= j < |items'| && items'[j] == items[i];
      TurnReadsLocal(p, p, items[i], now, plan, plan');
    } else {
      forall j | 0 <= j < |items'|
        ensures items'[j].id != id
      {
        assert items'[j] in items;
      }
    }
  }

  /** The same for the whole plant: any two visiting orders end with the same rows, the
      same containers and the same history of every sandbox. */
  lemma PassIgnoresOrder(p: Plant, items: seq<Item>, items': seq<Item>, now: int, plan: Plan)
    requires DistinctIds(items) && DistinctIds(items')
    requires forall it :: it in items <==> it in items'
    ensures var a, b := RunPass(p, items, now, plan).plant, RunPass(p, items', now, plan).plant;
            a.db.rows == b.db.rows && a.cs == b.cs && forall id :: History(a.db.events, id) == History(b.db.events, id)
  {
    var a, b := RunPass(p, items, now, plan).plant, RunPass(p, items', now, plan).plant;
    forall id
      ensures ViewOf(a, id) == ViewOf(b, id)
    {
      PassIgnoresOrderAndOtherFaults(p, items, items', now, plan, plan, id);
    }
    forall id
      ensures id in a.db.rows <==> id in b.db.rows
      ensures id in a.db.rows ==> a.db.rows[id] == b.db.rows[id]
      ensures id in a.cs <==> id in b.cs
      ensures id in a.cs ==> a.cs[id] == b.cs[id]
      ensures History(a.db.events, id) == History(b.db.events, id)
    {
      assert ViewOf(a, id) == ViewOf(b, id);
    }
    assert a.db.rows == b.db.rows;
  }

  function AfterItem(p: Plant, done: seq<Action>, item: Item, now: int, plan: Plan): PassResult {
    var action := Decide(item.desired, item.observed, now);
    if action == ActionNone then PassResult(p, done)
    else PassResult(Handle(p, action, item, FaultsFor(plan, item.id)).plant, done + [action])
  }

  /** A pass over one item more. */
  lemma {:induction false} PassOverOneMore(p: Plant, items: seq<Item>, item: Item, now: int, plan: Plan)
    ensures var a := RunPass(p, items, now, plan);
            RunPass(p, items + [item], now, plan) == AfterItem(a.plant, a.actions, item, now, plan)
    decreases |items|
  {
    if items == [] {
      assert items + [item] == [item];
      assert [item][1..] == [];
    } else {
      assert (items + [item])[1..] == items[1..] + [item];
      PassOverOneMore(Turn(p, items[0], now, plan), items[1..], item, now, plan);
    }
  }

  // ---- Dispatch ----

  // Every store write an operation leads to goes along a legal edge.
  predicate LegalOp(op: Op) {
    match op
    case Mark(from, to, reason, _) => Legal(from, to) && reason != ""
    case CallDestroy(next) => LegalOp(next)
    case _ => true
  }

  /** Every decided action passes the dispatch checks, and its write is one that
      CanTransition allows. */
  lemma DecisionsDispatch(item: Item, now: int)
    requires item.id != ""
    requires item.desired.Some? ==> !item.desired.value.state.Other?
    requires Decide(item.desired, item.observed, now) != ActionNone
    ensures var r := Begin(Decide(item.desired, item.observed, now), item);
            && r.Ok? && LegalOp(r.value)
            && (r.value.CallCreate? ==> item.desired.value.state == Pending && item.observed == None)
  {
  }

  // ---- What one turn achieves ----

  /** The outcome a faultless turn aims at, as a table of its own. */
  function Target(row: Option<Row>, container: Option<CState>, now: int): (Option<Row>, Option<CState>) {
    if row.None? then (None, None)
    else
      var r := row.value;
      if Terminal(r.state) then (row, None)
      else if now > r.expiresAt || r.state == Stopping then
        (Some(r.(state := if r.state == Stopping then Stopped else Failed, version := r.version + 1)), None)
      else if r.state == Pending && (container == Some(Up) || (container == None && Resolves(r.spec))) then
        (Some(r.(state := Running, version := r.version + 1)), Some(Up))
      else if r.state == Running && container == Some(Up) then (row, container)
      else (Some(r.(state := Failed, version := r.version + 1)), container)
  }

  // Rows and containers a pass can start from, whatever crash left them.
  ghost predicate ValidPlant(p: Plant) {
    && Sound(p.db)
    && (forall id :: id in p.db.rows ==> ValidSandboxID(id))
    && (forall id :: id in p.cs ==> ValidSandboxID(id))
  }

  function ItemOf(p: Plant, id: string): Item {
    Item(id, Lookup(p.db.rows, id), Lookup(p.cs, id))
  }

  // A mark that observed the current row commits.
  lemma CurrentMarkCommits(p: Plant, id: string, to: TaskState, reason: string)
    requires Sound(p.db) && id in p.db.rows
    requires Legal(p.db.rows[id].state, to) && reason != ""
    ensures var row := p.db.rows[id];
            var r := Finish(p, id, Mark(row.state, to, reason, row.version), NO_FAULTS);
            && r.error.None? && r.plant.cs == p.cs
            && Lookup(r.plant.db.rows, id) == Some(row.(state := to, version := row.version + 1))
  {
    var row := p.db.rows[id];
    assert RowSound(p.db, id);
    TransitionCommits(p.db, id, row.state, to, reason, row.version, NoFault);
    var r := StepOp(p, id, Mark(row.state, to, reason, row.version), NO_FAULTS);
    assert r.next == Done && r.error.None?;
    assert Finish(r.plant, id, Done, NO_FAULTS) == Outcome(r.plant, None);
  }

  lemma DestroyThenMark(p: Plant, id: string, next: Op)
    requires ValidSandboxID(id)
    ensures Finish(p, id, CallDestroy(next), NO_FAULTS) == Finish(p.(cs := p.cs - {id}), id, next, NO_FAULTS)
  {
    if id !in p.cs {
      assert p.cs - {id} == p.cs;
    }
  }

  lemma WriteBackCommits(p: Plant, id: string)
    requires Sound(p.db) && id in p.db.rows && p.db.rows[id].state == Pending
    ensures var row := p.db.rows[id];
            var r := Finish(p, id, WriteBack(row.version), NO_FAULTS);
            && r.error.None? && r.plant.cs == p.cs
            && Lookup(r.plant.db.rows, id) == Some(row.(state := Running, version := row.version + 1))
  {
    var row := p.db.rows[id];
    assert RowSound(p.db, id);
    TransitionCommits(p.db, id, Pending, Running, "reconciler created container", row.version, NoFault);
    var r := StepOp(p, id, WriteBack(row.version), NO_FAULTS);
    assert r.next == Done && r.error.None?;
    assert Finish(r.plant, id, Done, NO_FAULTS) == Outcome(r.plant, None);
  }

  lemma CreateThenWriteBack(p: Plant, id: string, spec: Spec)
    requires Sound(p.db) && id in p.db.rows && p.db.rows[id].state == Pending
    requires ValidSandboxID(id) && Validate(spec).Ok?
    ensures var row := p.db.rows[id];
            var r := Finish(p, id, CallCreate(spec, row.version), NO_FAULTS);
            && r.error.None?
            && Lookup(r.plant.db.rows, id) == Some(row.(state := Running, version := row.version + 1))
            && Lookup(r.plant.cs, id) == Some(Up)
  {
    var row := p.db.rows[id];
    var p1 := p.(cs := p.cs[id := Up]);
    assert StepOp(p, id, CallCreate(spec, row.version), NO_FAULTS) == Progress(p1, WriteBack(row.version), None);
    WriteBackCommits(p1, id);
  }

  // Where a chosen operation takes the row and its container when nothing fails.
  function Aim(row: Row, container: Option<CState>, op: Op): (Option<Row>, Option<CState>) {
    match op
    case Mark(_, to, _, _) => (Some(row.(state := to, version := row.version + 1)), container)
    case CallDestroy(Mark(_, to, _, _)) => (Some(row.(state := to, version := row.version + 1)), None)
    case CallDestroy(_) => (Some(row), None)
    case _ => (Some(row.(state := Running, version := row.version + 1)), Some(Up))
  }

  // An operation that carries the row's own state and version along a legal edge.
  predicate Fits(row: Row, op: Op) {
    match op
    case Mark(from, to, reason, version) =>
      from == row.state && version == row.version && Legal(from, to) && reason != ""
    case CallDestroy(Mark(from, to, reason, version)) =>
      from == row.state && version == row.version && Legal(from, to) && reason != ""
    case CallDestroy(Done) => true
    case CallCreate(spec, version) => row.state == Pending && version == row.version && Validate(spec).Ok?
    case _ => false
  }

  lemma OpReachesAim(p: Plant, id: string, op: Op)
    requires Sound(p.db) && ValidSandboxID(id) && id in p.db.rows && Fits(p.db.rows[id], op)
    ensures var r := Finish(p, id, op, NO_FAULTS).plant;
            (Lookup(r.db.rows, id), Lookup(r.cs, id)) == Aim(p.db.rows[id], Lookup(p.cs, id), op)
  {
    match op
    case Mark(_, to, reason, _) => CurrentMarkCommits(p, id, to, reason);
    case CallDestroy(Mark(_, to, reason, _)) =>
      DestroyThenMark(p, id, op.andThen);
      CurrentMarkCommits(p.(cs := p.cs - {id}), id, to, reason);
    case CallDestroy(Done) => DestroyThenMark(p, id, Done);
    case CallCreate(spec, _) => CreateThenWriteBack(p, id, spec);
  }

  lemma ChosenOpAimsAtTarget(row: Row, container: Option<CState>, id: string, now: int, op: Op)
    requires !row.state.Other?
    requires var action := Decide(Some(row), container, now);
             action != ActionNone && Begin(action, Item(id, Some(row), container)) == Ok(op)
    ensures Fits(row, op) && Aim(row, container, op) == Target(Some(row), container, now)
  {
    if Decide(Some(row), container, now) == ActionCreate {
      assert Resolves(row.spec) <==> ResolveValidated(row.spec).Ok?;
      assert op.CallCreate? ==> Validate(op.spec).Ok?;
    } else {
      assert !op.CallCreate?;
    }
  }

  lemma NoOtherStates(p: Plant, id: string)
    requires Sound(p.db)
    ensures id in p.db.rows ==> !p.db.rows[id].state.Other?
  {
    assert RowSound(p.db, id);
    if id in p.db.rows {
      VersionFollowsState(p.db, id);
    }
  }

  lemma TurnReachesTarget(p: Plant, id: string, now: int)
    requires Sound(p.db) && ValidSandboxID(id) && (id in p.db.rows || id in p.cs)
    ensures var p' := Turn(p, ItemOf(p, id), now, map[]);
            (Lookup(p'.db.rows, id), Lookup(p'.cs, id)) == Target(Lookup(p.db.rows, id), Lookup(p.cs, id), now)
  {
    var item := ItemOf(p, id);
    var action := Decide(item.desired, item.observed, now);
    assert |id| == 40;
    if id in p.db.rows {
      NoOtherStates(p, id);
      if action != ActionNone {
        DecisionsDispatch(item, now);
        var op := Begin(action, item).value;
        ChosenOpAimsAtTarget(p.db.rows[id], Lookup(p.cs, id), id, now, op);
        OpReachesAim(p, id, op);
      }
    } else {
      DestroyThenMark(p, id, Done);
    }
  }

  // ---- Convergence ----

  lemma RuntimeOpKeepsTables(p: Plant, id: string, op: Op, f: Faults)
    requires !op.WriteBack? && !op.Mark?
    ensures StepOp(p, id, op, f).plant.db == p.db && Grown(p.db, p.db)
  {
  }

  // The transaction of an operation that writes.
  function WriteOf(id: string, op: Op, fault: Fault): StoreOp
    requires op.WriteBack? || op.Mark?
  {
    match op
    case WriteBack(version) => StateOp(id, Pending, Running, "reconciler created container", version, fault)
    case Mark(from, to, reason, version) => StateOp(id, from, to, reason, version, fault)
  }

  lemma WriteOpWrites(p: Plant, id: string, op: Op, f: Faults)
    requires op.WriteBack? || op.Mark?
    ensures StepOp(p, id, op, f).plant.db == Apply(p.db, WriteOf(id, op, f.write)).db
  {
  }

  lemma StepOpKeepsSound(p: Plant, id: string, op: Op, f: Faults)
    requires Sound(p.db)
    ensures Sound(StepOp(p, id, op, f).plant.db) && Grown(p.db, StepOp(p, id, op, f).plant.db)
  {
    if op.WriteBack? || op.Mark? {
      WriteOpWrites(p, id, op, f);
      ApplyKeepsSound(p.db, WriteOf(id, op, f.write));
    } else {
      RuntimeOpKeepsTables(p, id, op, f);
    }
  }

  lemma {:induction false} FinishKeepsSound(p: Plant, id: string, op: Op, f: Faults)
    requires Sound(p.db)
    ensures Sound(Finish(p, id, op, f).plant.db) && Grown(p.db, Finish(p, id, op, f).plant.db)
    decreases Rank(op)
  {
    if op != Done {
      StepOpKeepsSound(p, id, op, f);
      var r := StepOp(p, id, op, f);
      if r.error.None? {
        FinishKeepsSound(r.plant, id, r.next, f);
        GrownTransitive(p.db, r.plant.db, Finish(r.plant, id, r.next, f).plant.db);
      }
    }
  }

  lemma {:induction false} PassKeepsSound(p: Plant, items: seq<Item>, now: int, plan: Plan)
    requires Sound(p.db)
    ensures Sound(RunPass(p, items, now, plan).plant.db) && Grown(p.db, RunPass(p, items, now, plan).plant.db)
    decreases |items|
  {
    if items != [] {
      var item := items[0];
      var action := Decide(item.desired, item.observed, now);
      if action != ActionNone && Begin(action, item).Ok? {
        FinishKeepsSound(p, item.id, Begin(action, item).value, FaultsFor(plan, item.id));
      }
      var p' := Turn(p, item, now, plan);
      PassKeepsSound(p', items[1..], now, plan);
      GrownTransitive(p.db, p'.db, RunPass(p', items[1..], now, plan).plant.db);
    }
  }

  // Every sandbox is at its target.
  ghost predicate AtTarget(p: Plant, now: int, p': Plant) {
    forall id :: (Lookup(p'.db.rows, id), Lookup(p'.cs, id)) == Target(Lookup(p.db.rows, id), Lookup(p.cs, id), now)
  }

  /** One uninterrupted, faultless pass from any valid mix of rows and containers takes
      every sandbox to its target. */
  lemma PassReachesTarget(p: Plant, items: seq<Item>, now: int)
    requires ValidPlant(p) && OuterJoin(p.db.rows, p.cs, items)
    ensures AtTarget(p, now, RunPass(p, items, now, map[]).plant)
  {
    var p' := RunPass(p, items, now, map[]).plant;
    forall id
      ensures (Lookup(p'.db.rows, id), Lookup(p'.cs, id)) == Target(Lookup(p.db.rows, id), Lookup(p.cs, id), now)
    {
      PassIsPointwise(p, items, now, map[], id);
      if id in p.db.rows || id in p.cs {
        var i :| 0 <= i < |items| && items[i].id == id;
        assert items[i] == ItemOf(p, id);
        TurnReachesTarget(p, id, now);
      }
      assert Lookup(p'.db.rows, id) == ViewOf(p', id).row;
    }
  }

  lemma TargetsStayValid(p: Plant, now: int, p': Plant)
    requires AtTarget(p, now, p') && Sound(p'.db)
    requires forall id :: id in p.db.rows || id in p.cs ==> ValidSandboxID(id)
    ensures ValidPlant(p')
  {
    forall id | id in p'.db.rows || id in p'.cs
      ensures ValidSandboxID(id)
    {
      assert (Lookup(p'.db.rows, id), Lookup(p'.cs, id)) == Target(Lookup(p.db.rows, id), Lookup(p.cs, id), now);
    }
  }

  lemma PassKeepsValid(p: Plant, items: seq<Item>, now: int)
    requires ValidPlant(p) && OuterJoin(p.db.rows, p.cs, items)
    ensures ValidPlant(RunPass(p, items, now, map[]).plant)
  {
    var p' := RunPass(p, items, now, map[]).plant;
    PassKeepsSound(p, items, now, map[]);
    PassReachesTarget(p, items, now);
    TargetsStayValid(p, now, p');
  }

  // Nothing to do for any sandbox.
  ghost predicate Converged(p: Plant, now: int) {
    forall id :: Decide(Lookup(p.db.rows, id), Lookup(p.cs, id), now) == ActionNone
  }

  lemma {:induction false} IdlePass(p: Plant, items: seq<Item>, now: int, plan: Plan)
    requires forall it :: it in items ==> Decide(it.desired, it.observed, now) == ActionNone
    ensures RunPass(p, items, now, plan) == PassResult(p, [])
    decreases |items|
  {
    if items != [] {
      assert items[0] in items;
      IdlePass(p, items[1..], now, plan);
    }
  }

  lemma {:induction false} BusyPass(p: Plant, items: seq<Item>, now: int, plan: Plan, i: nat)
    requires i < |items| && Decide(items[i].desired, items[i].observed, now) != ActionNone
    ensures RunPass(p, items, now, plan).actions != []
    decreases i
  {
    if i > 0 {
      BusyPass(Turn(p, items[0], now, plan), items[1..], now, plan, i - 1);
    }
  }

  /** A converged plant is a fixed point, and the only kind: a pass reports no action
      exactly then. */
  lemma ConvergedPassDoesNothing(p: Plant, items: seq<Item>, now: int, plan: Plan)
    requires OuterJoin(p.db.rows, p.cs, items)
    ensures Converged(p, now) <==> RunPass(p, items, now, plan).actions == []
    ensures Converged(p, now) ==> RunPass(p, items, now, plan) == PassResult(p, [])
  {
    if Converged(p, now) {
      forall it | it in items
        ensures Decide(it.desired, it.observed, now) == ActionNone
      {
        assert Decide(Lookup(p.db.rows, it.id), Lookup(p.cs, it.id), now) == ActionNone;
      }
      IdlePass(p, items, now, plan);
    } else {
      var id :| Decide(Lookup(p.db.rows, id), Lookup(p.cs, id), now) != ActionNone;
      var i :| 0 <= i < |items| && items[i].id == id;
      BusyPass(p, items, now, plan, i);
    }
  }

  /** The targets' own algebra: aiming twice leaves nothing to do. */
  lemma TargetsConverge(row: Option<Row>, container: Option<CState>, t1: int, t2: int)
    requires row.Some? ==> !row.value.state.Other?
    ensures var (row1, container1) := Target(row, container, t1);
            var (row2, container2) := Target(row1, container1, t2);
            Decide(row2, container2, t2) == ActionNone
  {
  }

  lemma TwiceAtTarget(p: Plant, t1: int, p1: Plant, t2: int, p2: Plant)
    requires Sound(p.db) && AtTarget(p, t1, p1) && AtTarget(p1, t2, p2)
    ensures Converged(p2, t2)
  {
    forall id
      ensures Decide(Lookup(p2.db.rows, id), Lookup(p2.cs, id), t2) == ActionNone
    {
      NoOtherStates(p, id);
      TargetsConverge(Lookup(p.db.rows, id), Lookup(p.cs, id), t1, t2);
      assert (Lookup(p1.db.rows, id), Lookup(p1.cs, id)) == Target(Lookup(p.db.rows, id), Lookup(p.cs, id), t1);
      assert (Lookup(p2.db.rows, id), Lookup(p2.cs, id)) == Target(Lookup(p1.db.rows, id), Lookup(p1.cs, id), t2);
    }
  }

  /** Two passes suffice from anywhere, at any two clock readings: a third pass at the
      second reading reports nothing and changes nothing. */
  lemma TwoPassesConverge(p: Plant, items1: seq<Item>, t1: int, p1: Plant, items2: seq<Item>, t2: int, p2: Plant,
      items3: seq<Item>)
    requires ValidPlant(p)
    requires OuterJoin(p.db.rows, p.cs, items1) && p1 == RunPass(p, items1, t1, map[]).plant
    requires OuterJoin(p1.db.rows, p1.cs, items2) && p2 == RunPass(p1, items2, t2, map[]).plant
    requires OuterJoin(p2.db.rows, p2.cs, items3)
    ensures RunPass(p2, items3, t2, map[]) == PassResult(p2, [])
  {
    PassKeepsValid(p, items1, t1);
    PassReachesTarget(p, items1, t1);
    PassReachesTarget(p1, items2, t2);
    TwiceAtTarget(p, t1, p1, t2, p2);
    ConvergedPassDoesNothing(p2, items3, t2, map[]);
  }

  // The one kind of drift that takes two passes: an exited container under a live row
  // is first recorded as a failure and only then removed.
  predicate ExitedUnderLiveRow(row: Option<Row>, container: Option<CState>, now: int) {
    && row.Some? && (row.value.state == Pending || row.value.state == Running)
    && now <= row.value.expiresAt
    && container == Some(Exited)
  }

  lemma TargetConvergesIff(row: Option<Row>, container: Option<CState>, now: int)
    requires row.Some? ==> !row.value.state.Other?
    ensures var (row', container') := Target(row, container, now);
            Decide(row', container', now) == ActionNone <==> !ExitedUnderLiveRow(row, container, now)
  {
    var (row', container') := Target(row, container, now);
    if ExitedUnderLiveRow(row, container, now) {
      assert row'.value.state == Failed && container' == Some(Exited);
      assert Decide(row', container', now) == ActionDestroy;
    } else {
      match container
      case None =>
      case Some(Up) =>
      case Some(Exited) =>
    }
  }

  /** The bound of two is tight, and exactly when: one pass leaves work behind at its own
      clock reading if and only if some live row has an exited container. */
  lemma OnePassConvergesIff(p: Plant, items: seq<Item>, now: int, p': Plant)
    requires ValidPlant(p) && OuterJoin(p.db.rows, p.cs, items) && p' == RunPass(p, items, now, map[]).plant
    ensures Converged(p', now) <==> forall id :: !ExitedUnderLiveRow(Lookup(p.db.rows, id), Lookup(p.cs, id), now)
  {
    PassReachesTarget(p, items, now);
    forall id
      ensures Decide(Lookup(p'.db.rows, id), Lookup(p'.cs, id), now) == ActionNone
         <==> !ExitedUnderLiveRow(Lookup(p.db.rows, id), Lookup(p.cs, id), now)
    {
      NoOtherStates(p, id);
      TargetConvergesIff(Lookup(p.db.rows, id), Lookup(p.cs, id), now);
      assert (Lookup(p'.db.rows, id), Lookup(p'.cs, id)) == Target(Lookup(p.db.rows, id), Lookup(p.cs, id), now);
    }
  }

  lemma ExpiredTarget(row: Row, container: Option<CState>, now: int)
    requires now > row.expiresAt
    ensures var (row', container') := Target(Some(row), container, now);
            row'.Some? && Terminal(row'.value.state) && container' == None
  {
  }

  /** Reaping: a faultless pass later than a row's expiry leaves the row terminal and no
      container, whatever state both were in. */
  lemma ExpiredIsReaped(p: Plant, items: seq<Item>, now: int, p': Plant, id: string)
    requires ValidPlant(p) && OuterJoin(p.db.rows, p.cs, items) && p' == RunPass(p, items, now, map[]).plant
    requires id in p.db.rows && now > p.db.rows[id].expiresAt
    ensures id in p'.db.rows && Terminal(p'.db.rows[id].state) && id !in p'.cs
  {
    PassReachesTarget(p, items, now);
    NoOtherStates(p, id);
    ExpiredTarget(p.db.rows[id], Lookup(p.cs, id), now);
    assert (Lookup(p'.db.rows, id), Lookup(p'.cs, id)) == Target(Lookup(p.db.rows, id), Lookup(p.cs, id), now);
  }

  // ---- Compensation ----

  // The second half of a create: the container is up, the row may have moved on.
  lemma WriteBackOrUndo(p: Plant, before: map<string, CState>, id: string, version: int, f: Faults)
    requires id !in before && p.cs == before[id := Up]
    ensures var tx := UpdateState(p.db, id, Pending, Running, "reconciler created container", version, f.write);
            var rt := RtDestroy(p.cs, id, f.destroy);
            var r := Finish(p, id, WriteBack(version), f);
            if tx.result.Ok? then r == Outcome(p.(db := tx.db), None)
            else if rt.result.Ok? then r == Outcome(p.(cs := before), Some(ErrUndone(tx.result.error)))
            else r == Outcome(p.(cs := rt.cs), Some(ErrNotUndone(tx.result.error, rt.result.error)))
  {
    assert p.cs - {id} == before;
  }

  // The daemon made the container and its reply was lost.
  predicate CreateReplyLost(f: CreateFault) {
    !f.pullFails && f.create.Lost?
  }

  /** When a create action ends, with every call free to fail: success means the
      write-back committed and the container runs; otherwise the containers are as
      before, unless the error itself names the failure that left one or the daemon lost
      the reply of its own create. */
  lemma CreateIsAllOrReported(p: Plant, item: Item, f: Faults)
    requires item.id !in p.cs && item.desired.Some? && item.desired.value.state == Pending
    requires Resolves(item.desired.value.spec)
    ensures var row := item.desired.value;
            var r := Handle(p, ActionCreate, item, f);
            match r.error
            case None =>
              && r.plant.cs == p.cs[item.id := Up]
              && r.plant.db
                == UpdateState(p.db, item.id, Pending, Running, "reconciler created container", row.version, f.write).db
              && item.id in r.plant.db.rows && r.plant.db.rows[item.id].state == Running
              && r.plant.db.rows[item.id].version == row.version + 1
            case Some(ErrNotUndone(_, e)) =>
              r.plant.db == p.db && Rt(r.plant.cs, Err(e)) == RtDestroy(p.cs[item.id := Up], item.id, f.destroy)
            case Some(ErrLeaked(_)) =>
              r.plant.db == p.db && (if f.create.remove.Refused? then item.id in r.plant.cs else r.plant.cs == p.cs)
            case Some(_) => r.plant == p || (CreateReplyLost(f.create) && r.plant == p.(cs := p.cs[item.id := Exited]))
  {
    var row := item.desired.value;
    if item.id != "" {
      var spec := ResolveValidated(row.spec).value;
      var op := CallCreate(spec, row.version);
      assert Handle(p, ActionCreate, item, f) == Finish(p, item.id, op, f);
      var r1 := StepOp(p, item.id, op, f);
      if r1.error.None? {
        assert Finish(p, item.id, op, f) == Finish(r1.plant, item.id, WriteBack(row.version), f);
        WriteBackOrUndo(r1.plant, p.cs, item.id, row.version, f);
      }
    }
  }
}
