/** Runs without faults: whenever no pass is in flight, desired and actual state agree,
    for every interleaving of API steps with the calls of the passes. */
module Agreement {
  import opened Wrappers
  import opened Lifecycle
  import opened SpecResolve
  import opened Tables
  import opened RuntimeMap
  import opened Decision
  import opened Protocol
  import opened Safety

  /** Rows and containers agree about one sandbox. */
  ghost predicate Agrees(w: World, id: string) {
    && (id in w.cs ==>
          && id in w.db.rows && w.cs[id] == Up
          && (w.db.rows[id].state == Running || w.db.rows[id].state == Stopping))
    && (id in w.db.rows && w.db.rows[id].state == Running ==> id in w.cs)
  }

  // The item a call has been made for, and the call not yet answered by its write.
  predicate Busy(pass: Pass, id: string) {
    pass.Working? && pass.begun && pass.todo != [] && pass.todo[0].id == id
  }

  // A listed row and the current state still tell the same story.
  ghost predicate RowFresh(w: World, id: string, listed: Row) {
    && (listed.state == Pending ==> id in w.db.rows && w.db.rows[id].state == Pending)
    && (listed.state == Running ==> id in w.cs)
    && (Terminal(listed.state) ==> id !in w.cs)
  }

  ghost predicate ItemFresh(w: World, item: Item) {
    && item.desired.Some?
    && item.observed == Lookup(w.cs, item.id)
    && RowFresh(w, item.id, item.desired.value)
  }

  // Between a call and the write it leads to.
  ghost predicate MidOp(w: World, item: Item, op: Op) {
    item.desired.Some? &&
    match op
    case WriteBack(version) =>
      && version == item.desired.value.version && item.desired.value.state == Pending
      && item.id in w.db.rows && w.db.rows[item.id].state == Pending
      && item.id in w.cs && w.cs[item.id] == Up
    case Mark(from, to, reason, version) =>
      && from == item.desired.value.state && version == item.desired.value.version
      && from != Pending && Legal(from, to) && Terminal(to) && reason != ""
      && item.id !in w.cs
    case _ => false
  }

  ghost predicate PassFresh(w: World) {
    match w.pass
    case Idle => true
    case Listed(rows) =>
      && (forall id :: id in w.cs ==> id in rows)
      && (forall id :: id in rows ==> RowFresh(w, id, rows[id]))
    case Joined(items) => forall i :: 0 <= i < |items| ==> ItemFresh(w, items[i])
    case Working(_, todo, op, begun) =>
      && (forall i :: 0 <= i < |todo| && (i > 0 || !begun) ==> ItemFresh(w, todo[i]))
      && (begun && todo != [] ==> MidOp(w, todo[0], op))
  }

  ghost predicate CleanInv(w: World) {
    && (forall id :: !Busy(w.pass, id) ==> Agrees(w, id))
    && PassFresh(w)
  }

  // ---- API steps only stop running rows and add pending ones ----

  /** What an API step can do to the tables. */
  ghost predicate ApiMove(db: DB, db': DB) {
    && (forall id :: id in db.rows ==>
          && id in db'.rows
          && (db'.rows[id].state == db.rows[id].state
            || (db.rows[id].state == Running && db'.rows[id].state == Stopping)))
    && (forall id :: id in db'.rows && id !in db.rows ==> db'.rows[id].state == Pending)
  }

  lemma ApiMoveKeepsClean(w: World, w': World)
    requires CleanInv(w) && ApiMove(w.db, w'.db)
    requires w'.cs == w.cs && w'.pass == w.pass
    ensures CleanInv(w')
  {
  }

  lemma NoMove(db: DB)
    ensures ApiMove(db, db)
  {
  }

  lemma OpIsApiMove(db: DB, op: StoreOp)
    requires op.StateOp? ==> op.from == Running && op.to == Stopping
    ensures ApiMove(db, Apply(db, op).db)
  {
    match op
    case StateOp(_, _, _, _, _, _) =>
    case ExpiryOp(_, _, _) =>
    case InsertOp(_, _, _, _, _) =>
  }

  lemma AdvanceIsApiMove(w: World, c: nat, mint: string, fault: Fault)
    requires c in w.calls
    ensures ApiMove(w.db, Advances(w, c, mint, fault).db)
    ensures Advances(w, c, mint, fault).cs == w.cs && Advances(w, c, mint, fault).pass == w.pass
  {
    var ops := AdvanceWrites(w, c, mint, fault);
    if ops == [] {
      NoMove(w.db);
    } else {
      OpIsApiMove(w.db, ops[0]);
      assert ops[1..] == [];
    }
  }

  // ---- The two listings ----

  lemma ListRowsFresh(w: World)
    requires CleanInv(w) && w.pass.Idle?
    ensures CleanInv(w.(pass := Listed(w.db.rows)))
  {
    var w' := w.(pass := Listed(w.db.rows));
    forall id
      ensures Agrees(w', id)
    {
      assert Agrees(w, id);
    }
    forall id | id in w.db.rows
      ensures RowFresh(w', id, w.db.rows[id])
    {
      assert Agrees(w, id);
    }
    assert forall id :: id in w.cs ==> Agrees(w, id);
  }

  lemma ResumeFresh(w: World, now: int, todo: seq<Item>)
    requires forall id :: Agrees(w, id)
    requires forall i :: 0 <= i < |todo| ==> ItemFresh(w, todo[i])
    ensures CleanInv(w.(pass := Resume(now, todo)))
  {
    var w' := w.(pass := Resume(now, todo));
    forall id
      ensures Agrees(w', id)
    {
      assert Agrees(w, id);
    }
    forall i | 0 <= i < |todo|
      ensures ItemFresh(w', todo[i])
    {
      assert ItemFresh(w, todo[i]);
    }
  }

  lemma ListContainersFresh(w: World, items: seq<Item>)
    requires CleanInv(w) && w.pass.Listed? && OuterJoin(w.pass.rows, w.cs, items)
    ensures CleanInv(w.(pass := Joined(items)))
  {
    var w' := w.(pass := Joined(items));
    forall i | 0 <= i < |items|
      ensures ItemFresh(w', items[i])
    {
      var id := items[i].id;
      assert id in w.pass.rows;
      assert RowFresh(w, id, w.pass.rows[id]);
    }
    assert forall id :: Agrees(w, id) ==> Agrees(w', id);
  }

  lemma ReadClockFresh(w: World)
    requires CleanInv(w) && w.pass.Joined?
    ensures CleanInv(w.(pass := Resume(w.clock, w.pass.items)))
  {
    forall id
      ensures Agrees(w, id)
    {
      assert !Busy(w.pass, id);
    }
    ResumeFresh(w, w.clock, w.pass.items);
  }

  // ---- The calls of a pass ----

  /** Without faults, these are the only operations a pass starts an item with; a row is
      failed only because its lease ran out, and a running container is removed only
      under a row that was stopping or whose lease ran out. */
  lemma CleanFirstOps(w: World, item: Item, now: int)
    requires ItemFresh(w, item) && ItemSeen(w.db, item) && (item.id in w.cs ==> w.cs[item.id] == Up)
    requires ValidSandboxID(item.id)
    requires item.id in w.cs ==> item.id in w.db.rows && w.db.rows[item.id].state != Pending
    ensures var row := item.desired.value;
            match FirstOp(item, now)
            case Done => true
            case CallCreate(spec, version) =>
              row.state == Pending && version == row.version && item.id !in w.cs && Validate(spec).Ok?
            case Mark(from, to, reason, version) =>
              && from == row.state && version == row.version && Legal(from, to) && Terminal(to) && reason != ""
              && item.id !in w.cs && (to == Failed ==> now > row.expiresAt)
            case CallDestroy(Mark(from, to, reason, version)) =>
              && from == row.state && version == row.version && from != Pending
              && Legal(from, to) && Terminal(to) && reason != ""
              && (row.state == Stopping || now > row.expiresAt)
            case _ => false
  {
    var row := item.desired.value;
    assert Seen(w.db, item.id, row);
    assert |item.id| == 40;
    assert !row.state.Other?;
    assert Resolves(row.spec);
  }

  // The effects of the calls a clean pass makes.
  lemma CreateCallKeepsClean(w: World, item: Item, spec: Spec, version: int)
    requires ValidSandboxID(item.id) && Validate(spec).Ok?
    ensures StepOp(Plant(w.db, w.cs), item.id, CallCreate(spec, version), NO_FAULTS)
         == Progress(Plant(w.db, w.cs[item.id := Up]), WriteBack(version), None)
  {
  }

  lemma DestroyCallKeepsClean(w: World, item: Item, next: Op)
    requires ValidSandboxID(item.id)
    ensures StepOp(Plant(w.db, w.cs), item.id, CallDestroy(next), NO_FAULTS)
         == Progress(Plant(w.db, w.cs - {item.id}), next, None)
  {
  }

  // Another item is untouched by what happens to id.
  lemma OtherItemFresh(w: World, w': World, id: string, item: Item)
    requires ItemFresh(w, item) && item.id != id
    requires forall other :: other != id ==> Lookup(w'.db.rows, other) == Lookup(w.db.rows, other)
    requires forall other :: other != id ==> Lookup(w'.cs, other) == Lookup(w.cs, other)
    ensures ItemFresh(w', item)
  {
    assert Lookup(w'.db.rows, item.id) == Lookup(w.db.rows, item.id);
    assert Lookup(w'.cs, item.id) == Lookup(w.cs, item.id);
  }

  lemma OthersAgree(w: World, w': World, id: string)
    requires forall other :: other != id ==> Agrees(w, other)
    requires forall other :: other != id ==> Lookup(w'.db.rows, other) == Lookup(w.db.rows, other)
    requires forall other :: other != id ==> Lookup(w'.cs, other) == Lookup(w.cs, other)
    ensures forall other :: other != id ==> Agrees(w', other)
  {
    forall other | other != id
      ensures Agrees(w', other)
    {
      assert Agrees(w, other);
      assert Lookup(w'.db.rows, other) == Lookup(w.db.rows, other);
      assert Lookup(w'.cs, other) == Lookup(w.cs, other);
    }
  }

  // The pass goes on with its item: what remains to be shown is about that item only.
  lemma GoOn(w: World, w': World)
    requires CleanInv(w) && PassOk(w.db, w.cs, w.pass) && w.pass.Working?
    requires var id := w.pass.todo[0].id;
             && (forall other :: other != id ==> Lookup(w'.db.rows, other) == Lookup(w.db.rows, other))
             && (forall other :: other != id ==> Lookup(w'.cs, other) == Lookup(w.cs, other))
    requires w'.pass.Working? && w'.pass.todo == w.pass.todo && w'.pass.begun
    requires MidOp(w', w.pass.todo[0], w'.pass.op)
    ensures CleanInv(w')
  {
    var id := w.pass.todo[0].id;
    OthersAgree(w, w', id);
    forall i | 0 < i < |w.pass.todo|
      ensures ItemFresh(w', w.pass.todo[i])
    {
      OtherItemFresh(w, w', id, w.pass.todo[i]);
    }
  }

  // The pass is done with its item, which agrees.
  lemma MoveOn(w: World, w': World)
    requires CleanInv(w) && PassOk(w.db, w.cs, w.pass) && w.pass.Working?
    requires var id := w.pass.todo[0].id;
             && (forall other :: other != id ==> Lookup(w'.db.rows, other) == Lookup(w.db.rows, other))
             && (forall other :: other != id ==> Lookup(w'.cs, other) == Lookup(w.cs, other))
             && Agrees(w', id)
    requires w'.pass == Resume(w.pass.now, w.pass.todo[1..])
    ensures CleanInv(w')
  {
    var id, rest := w.pass.todo[0].id, w.pass.todo[1..];
    OthersAgree(w, w', id);
    forall i | 0 <= i < |rest|
      ensures ItemFresh(w', rest[i])
    {
      assert rest[i] == w.pass.todo[i + 1];
      OtherItemFresh(w, w', id, rest[i]);
    }
    ResumeFresh(w', w.pass.now, rest);
    assert w'.(pass := Resume(w.pass.now, rest)) == w';
  }

  // A write for id changes no other row.
  lemma WriteTouchesOne(db: DB, id: string, from: TaskState, to: TaskState, reason: string, version: int)
    ensures var db' := UpdateState(db, id, from, to, reason, version, NoFault).db;
            forall other :: other != id ==> Lookup(db'.rows, other) == Lookup(db.rows, other)
  {
  }

  /** A mark to a terminal state for a sandbox without container leaves it in agreement,
      whether or not the row was still as read. */
  lemma MarkAgrees(w: World, id: string, row: Row, to: TaskState, reason: string)
    requires Sound(w.db) && Seen(w.db, id, row) && id !in w.cs
    requires row.state == Pending ==> w.db.rows[id].state == Pending
    requires Legal(row.state, to) && Terminal(to) && reason != ""
    ensures Agrees(w.(db := UpdateState(w.db, id, row.state, to, reason, row.version, NoFault).db), id)
  {
    assert RowSound(w.db, id);
    VersionFollowsState(w.db, id);
    TransitionCommits(w.db, id, row.state, to, reason, row.version, NoFault);
  }

  lemma MarkStep(w: World, from: TaskState, to: TaskState, reason: string, version: int)
    requires w.pass.Working? && w.pass.todo != [] && w.pass.op == Mark(from, to, reason, version)
    ensures PassCalls(w, NO_FAULTS)
         == w.(db := UpdateState(w.db, w.pass.todo[0].id, from, to, reason, version, NoFault).db,
               pass := Resume(w.pass.now, w.pass.todo[1..]))
  {
  }

  // The item's last write: other rows stay, the item agrees, the pass goes on.
  lemma SettleItem(w: World, db': DB)
    requires CleanInv(w) && PassOk(w.db, w.cs, w.pass) && w.pass.Working?
    requires var id := w.pass.todo[0].id;
             && (forall other :: other != id ==> Lookup(db'.rows, other) == Lookup(w.db.rows, other))
             && Agrees(w.(db := db'), id)
    ensures CleanInv(w.(db := db', pass := Resume(w.pass.now, w.pass.todo[1..])))
  {
    var w' := w.(db := db', pass := Resume(w.pass.now, w.pass.todo[1..]));
    assert Agrees(w', w.pass.todo[0].id);
    MoveOn(w, w');
  }

  lemma MarkStepKeepsClean(w: World, from: TaskState, to: TaskState, reason: string, version: int)
    requires Inv(w) && CleanInv(w) && w.pass.Working? && w.pass.op == Mark(from, to, reason, version)
    requires var item := w.pass.todo[0];
             && item.desired.Some? && from == item.desired.value.state && version == item.desired.value.version
             && Legal(from, to) && Terminal(to) && reason != "" && item.id !in w.cs
             && (from == Pending ==> item.id in w.db.rows && w.db.rows[item.id].state == Pending)
    ensures CleanInv(PassCalls(w, NO_FAULTS))
  {
    var item := w.pass.todo[0];
    var db' := UpdateState(w.db, item.id, from, to, reason, version, NoFault).db;
    assert ItemSeen(w.db, item);
    MarkAgrees(w, item.id, item.desired.value, to, reason);
    WriteTouchesOne(w.db, item.id, from, to, reason, version);
    MarkStep(w, from, to, reason, version);
    SettleItem(w, db');
  }

  lemma WriteBackStepKeepsClean(w: World, version: int)
    requires Inv(w) && CleanInv(w) && w.pass.Working? && w.pass.op == WriteBack(version)
    requires MidOp(w, w.pass.todo[0], w.pass.op)
    ensures CleanInv(PassCalls(w, NO_FAULTS))
  {
    var item := w.pass.todo[0];
    var id := item.id;
    assert ItemSeen(w.db, item) && RowSound(w.db, id);
    VersionFollowsState(w.db, id);
    TransitionCommits(w.db, id, Pending, Running, "reconciler created container", version, NoFault);
    WriteTouchesOne(w.db, id, Pending, Running, "reconciler created container", version);
    var w' := PassCalls(w, NO_FAULTS);
    assert w'.cs == w.cs && w'.pass == Resume(w.pass.now, w.pass.todo[1..]);
    assert w'.db.rows[id].state == Running;
    MoveOn(w, w');
  }

  lemma FirstCreateKeepsClean(w: World, spec: Spec, version: int)
    requires Inv(w) && CleanInv(w) && w.pass.Working? && w.pass.op == CallCreate(spec, version)
    requires var item := w.pass.todo[0];
             && ValidSandboxID(item.id) && Validate(spec).Ok?
             && item.desired.Some? && item.desired.value.state == Pending && item.desired.value.version == version
             && item.id in w.db.rows && w.db.rows[item.id].state == Pending
    ensures CleanInv(PassCalls(w, NO_FAULTS))
  {
    CreateCallKeepsClean(w, w.pass.todo[0], spec, version);
    GoOn(w, PassCalls(w, NO_FAULTS));
  }

  lemma FirstDestroyKeepsClean(w: World, next: Op)
    requires Inv(w) && CleanInv(w) && w.pass.Working? && w.pass.op == CallDestroy(next) && next.Mark?
    requires var item := w.pass.todo[0];
             && ValidSandboxID(item.id)
             && item.desired.Some?
             && item.desired.value.state == next.from && item.desired.value.version == next.version
             && next.from != Pending && Legal(next.from, next.to) && Terminal(next.to) && next.reason != ""
    ensures CleanInv(PassCalls(w, NO_FAULTS))
  {
    DestroyCallKeepsClean(w, w.pass.todo[0], next);
    GoOn(w, PassCalls(w, NO_FAULTS));
  }

  lemma DoneKeepsClean(w: World)
    requires Inv(w) && CleanInv(w) && w.pass.Working? && !w.pass.begun && w.pass.op == Done
    ensures CleanInv(PassCalls(w, NO_FAULTS))
  {
    assert Agrees(w, w.pass.todo[0].id);
    MoveOn(w, PassCalls(w, NO_FAULTS));
  }

  lemma FirstStepKeepsClean(w: World)
    requires Inv(w) && CleanInv(w) && w.pass.Working? && !w.pass.begun
    ensures CleanInv(PassCalls(w, NO_FAULTS))
  {
    var item := w.pass.todo[0];
    assert ItemFresh(w, item) && ItemSeen(w.db, item) && Agrees(w, item.id) && RowOk(w, item.id);
    assert Seen(w.db, item.id, item.desired.value);
    CleanFirstOps(w, item, w.pass.now);
    assert w.pass.op == FirstOp(item, w.pass.now);
    match w.pass.op
    case Done => DoneKeepsClean(w);
    case CallCreate(spec, version) => FirstCreateKeepsClean(w, spec, version);
    case CallDestroy(next) => FirstDestroyKeepsClean(w, next);
    case Mark(from, to, reason, version) => MarkStepKeepsClean(w, from, to, reason, version);
  }

  lemma PassCallKeepsClean(w: World)
    requires Inv(w) && CleanInv(w) && w.pass.Working?
    ensures CleanInv(PassCalls(w, NO_FAULTS))
  {
    if w.pass.begun {
      match w.pass.op
      case WriteBack(version) => WriteBackStepKeepsClean(w, version);
      case Mark(from, to, reason, version) => MarkStepKeepsClean(w, from, to, reason, version);
      case _ =>
    } else {
      FirstStepKeepsClean(w);
    }
  }

  // ---- Every clean step, every clean run ----

  lemma ApiStepKeepsClean(w: World, s: Step)
    requires CleanInv(w) && (s.Tick? || s.StartCreate? || s.StartKeepalive? || s.LoadDestroy? || s.AdvanceCall?)
    ensures CleanInv(Next(w, s))
  {
    var w' := Next(w, s);
    NoMove(w.db);
    if s.AdvanceCall? && s.c in w.calls {
      AdvanceIsApiMove(w, s.c, s.mint, s.fault);
    } else {
      assert w'.db == w.db && w'.cs == w.cs && w'.pass == w.pass;
    }
    ApiMoveKeepsClean(w, w');
  }

  lemma NextKeepsClean(w: World, s: Step)
    requires Inv(w) && CleanInv(w) && Clean(s)
    ensures CleanInv(Next(w, s))
  {
    match s
    case ListRows(_) =>
      if w.pass.Idle? {
        ListRowsFresh(w);
      }
    case ListContainers(items, _) =>
      if w.pass.Listed? && OuterJoin(w.pass.rows, w.cs, items) {
        ListContainersFresh(w, items);
      }
    case ReadClock =>
      if w.pass.Joined? {
        ReadClockFresh(w);
      }
    case PassCall(_) =>
      if w.pass.Working? {
        PassCallKeepsClean(w);
      }
    case _ => ApiStepKeepsClean(w, s);
  }

  lemma {:induction false} CleanRunKeepsClean(ss: seq<Step>)
    requires AllClean(ss)
    ensures CleanInv(Run(INIT, ss))
    decreases |ss|
  {
    if ss != [] {
      var front := ss[..|ss| - 1];
      CleanRunKeepsClean(front);
      RunsAreSafe(front);
      assert ss[|ss| - 1] in ss;
      NextKeepsClean(Run(INIT, front), ss[|ss| - 1]);
    }
  }

  /** The agreement theorem: in every fault-free run, however API calls and pass calls
      interleave, whenever no pass is in flight every running row has a running
      container, every pending, stopped or failed row has none, and every container has
      a row. */
  lemma IdleMeansAgreement(ss: seq<Step>, id: string)
    requires AllClean(ss) && Run(INIT, ss).pass.Idle?
    ensures var w := Run(INIT, ss);
            && (id in w.db.rows && w.db.rows[id].state == Running ==> id in w.cs && w.cs[id] == Up)
            && (id in w.db.rows && (w.db.rows[id].state == Pending || Terminal(w.db.rows[id].state)) ==> id !in w.cs)
            && (id in w.cs ==> id in w.db.rows && w.cs[id] == Up)
  {
    CleanRunKeepsClean(ss);
    assert Agrees(Run(INIT, ss), id);
  }

  // Without faults, only a lapsed lease leads to a failed row.
  lemma FailureIsLapsed(item: Item, now: int, op: Op)
    requires Follows(FirstOp(item, now), op) && op.Mark? && op.to == Failed
    ensures item.desired.Some? && now > item.desired.value.expiresAt
  {
  }

  /** Nobody loses a live sandbox: in a fault-free run no call of a pass undoes a create,
      fails a row unless the row it listed was past its expiry, or removes a container
      unless then or if that row was stopping. */
  lemma OnlyExpiredOrStoppingIsTakenDown(ss: seq<Step>)
    requires AllClean(ss) && Run(INIT, ss).pass.Working?
    ensures var pass := Run(INIT, ss).pass;
            && pass.todo != []
            && var item := pass.todo[0];
            && item.desired.Some?
            && !pass.op.Undo?
            && (pass.op.Mark? && pass.op.to == Failed ==> pass.now > item.desired.value.expiresAt)
            && (pass.op.CallDestroy? ==>
              item.desired.value.state == Stopping || pass.now > item.desired.value.expiresAt)
  {
    CleanRunKeepsClean(ss);
    RunsAreSafe(ss);
    var w := Run(INIT, ss);
    var item, op := w.pass.todo[0], w.pass.op;
    if w.pass.begun {
      assert MidOp(w, item, op);
      if op.Mark? && op.to == Failed {
        FailureIsLapsed(item, w.pass.now, op);
      }
    } else {
      assert ItemFresh(w, item) && ItemSeen(w.db, item) && Agrees(w, item.id) && RowOk(w, item.id);
      assert Seen(w.db, item.id, item.desired.value);
      CleanFirstOps(w, item, w.pass.now);
    }
  }
}
