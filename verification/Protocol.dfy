/** The lifecycle protocol as a transition system: API calls and a reconcile pass, each
    broken into its atomic reads and writes, interleaved freely, with faults
    (internal/control/control.go, internal/store/sqlite/sqlite.go,
    internal/reconciler/reconciler.go). */
module Protocol {
  import opened Wrappers
  import opened Lifecycle
  import opened SpecResolve
  import opened Tables
  import opened RuntimeMap
  import opened Decision
  import opened Wire
  import opened Control

  // An API call between two of its store accesses.
  datatype Call =
    | CreateLooking(key: string, spec: SpecFile, expiresAt: int, readAt: int)
    | CreateFetching(key: string, id: string)
    | CreateInserting(key: string, spec: SpecFile, expiresAt: int, readAt: int)
    | KeepaliveWriting(id: string, expiresAt: int, readAt: int)
    | DestroyWriting(id: string, seen: Row)

  // A successful return: of a create, with the record it gave back; of a destroy, with
  // the state it had read, if it had found a row.
  datatype Return =
    | CreateOk(key: string, id: string, spec: SpecFile)
    | DestroyOk(id: string, seen: Option<TaskState>)

  // The reconciler: between its two listings, about to read the clock, or working on the
  // first item of a list that goes stale while it works; begun says a call for that item
  // has been made.
  datatype Pass =
    | Idle
    | Listed(rows: map<string, Row>)
    | Joined(items: seq<Item>)
    | Working(now: int, todo: seq<Item>, op: Op, begun: bool)

  // leases and told are bookkeeping: the clock reading behind each row's expiry, and
  // what callers were told.
  datatype World = World(
    db: DB,
    cs: map<string, CState>,
    clock: int,
    calls: map<nat, Call>,
    pass: Pass,
    leases: map<string, int>,
    told: seq<Return>)

  const INIT := World(EMPTY_DB, map[], 0, map[], Idle, map[], [])

  datatype Step =
    | Tick(time: int)
    | StartCreate(c: nat, key: string, spec: SpecFile, ttl: int)
    | StartKeepalive(c: nat, id: string, ttl: int)
    | LoadDestroy(c: nat, id: string, fails: bool)
    | AdvanceCall(c: nat, mint: string, fault: Fault)
    | ListRows(fails: bool)
    | ListContainers(items: seq<Item>, fails: bool)
    | ReadClock
    | PassCall(f: Faults)
    | ContainerExit(id: string)
    | ContainerRestart(id: string)
    | ContainerVanish(id: string)
    | Crash

  // ---- API calls ----

  function Begins(w: World, s: Step): World
    requires s.StartCreate? || s.StartKeepalive? || s.LoadDestroy?
  {
    if s.c in w.calls then w
    else
      match s
      case StartCreate(c, key, spec, ttl) =>
        (match AdmitSandbox(spec, ttl, w.clock)
         case Err(_) => w
         case Ok(expiresAt) =>
           if expiresAt == ZERO_TIME then w
           else w.(calls := w.calls[c := CreateLooking(key, spec, expiresAt, w.clock)]))
      case StartKeepalive(c, id, ttl) =>
        (match AdmitKeepalive(ttl, w.clock)
         case Err(_) => w
         case Ok(expiresAt) => w.(calls := w.calls[c := KeepaliveWriting(id, expiresAt, w.clock)]))
      case LoadDestroy(c, id, fails) =>
        (match FetchRow(w.db, id, fails)
         case Err(e) => if e == ErrRowNotFound then w.(told := w.told + [DestroyOk(id, None)]) else w
         case Ok(sbx) => w.(calls := w.calls[c := DestroyWriting(id, sbx.row)]))
  }

  function Returned(w: World, c: nat, r: Option<Return>): World {
    w.(calls := w.calls - {c}, told := w.told + (match r case None => [] case Some(x) => [x]))
  }

  function Looks(w: World, c: nat, key: string, spec: SpecFile, expiresAt: int, readAt: int, fault: Fault): World {
    if !fault.NoFault? then Returned(w, c, None)
    else if key in w.db.keys then w.(calls := w.calls[c := CreateFetching(key, w.db.keys[key])])
    else w.(calls := w.calls[c := CreateInserting(key, spec, expiresAt, readAt)])
  }

  function Fetches(w: World, c: nat, key: string, id: string, fault: Fault): World {
    match FetchRow(w.db, id, !fault.NoFault?)
    case Err(_) => Returned(w, c, None)
    case Ok(sbx) => Returned(w, c, Some(CreateOk(key, id, sbx.row.spec)))
  }

  function Inserts(w: World, c: nat, call: Call, mint: string, fault: Fault): World
    requires call.CreateInserting?
  {
    if !ValidSandboxID(mint) then w
    else
      var tx := InsertSandbox(w.db, call.key, mint, call.spec, call.expiresAt, fault);
      match tx.result
      case Err(_) => Returned(w.(db := tx.db), c, None)
      case Ok(_) => Returned(w.(db := tx.db, leases := w.leases[mint := call.readAt]), c,
        Some(CreateOk(call.key, mint, call.spec)))
  }

  function Renews(w: World, c: nat, id: string, expiresAt: int, readAt: int, fault: Fault): World {
    var tx := UpdateExpiry(w.db, id, expiresAt, fault);
    match tx.result
    case Err(_) => Returned(w.(db := tx.db), c, None)
    case Ok(_) => Returned(w.(db := tx.db, leases := w.leases[id := readAt]), c, None)
  }

  function Stops(w: World, c: nat, id: string, seen: Row, fault: Fault): World {
    var tx := UpdateState(w.db, id, Running, Stopping, "destroy requested", seen.version, fault);
    match DestroyVerdict(tx.result)
    case Err(_) => Returned(w.(db := tx.db), c, None)
    case Ok(_) => Returned(w.(db := tx.db), c, Some(DestroyOk(id, Some(seen.state))))
  }

  /** The next store access of call c; mint is what NewSandboxID draws. */
  function Advances(w: World, c: nat, mint: string, fault: Fault): World
    requires c in w.calls
  {
    match w.calls[c]
    case CreateLooking(key, spec, expiresAt, readAt) => Looks(w, c, key, spec, expiresAt, readAt, fault)
    case CreateFetching(key, id) => Fetches(w, c, key, id, fault)
    case CreateInserting(_, _, _, _) => Inserts(w, c, w.calls[c], mint, fault)
    case KeepaliveWriting(id, expiresAt, readAt) => Renews(w, c, id, expiresAt, readAt, fault)
    case DestroyWriting(id, seen) => Stops(w, c, id, seen, fault)
  }

  lemma LookingLeavesTables(w: World, c: nat, mint: string, fault: Fault)
    requires c in w.calls && (w.calls[c].CreateLooking? || w.calls[c].CreateFetching?)
    ensures var w' := Advances(w, c, mint, fault); w'.db == w.db && w'.cs == w.cs && w'.pass == w.pass
  {
  }

  lemma InsertingWrites(w: World, c: nat, mint: string, fault: Fault)
    requires c in w.calls && w.calls[c].CreateInserting?
    ensures var call, w' := w.calls[c], Advances(w, c, mint, fault);
            && (w'.db == w.db || w'.db == InsertSandbox(w.db, call.key, mint, call.spec, call.expiresAt, fault).db)
            && w'.cs == w.cs && w'.pass == w.pass
  {
  }

  lemma RenewingWrites(w: World, c: nat, mint: string, fault: Fault)
    requires c in w.calls && w.calls[c].KeepaliveWriting?
    ensures var call, w' := w.calls[c], Advances(w, c, mint, fault);
            w'.db == UpdateExpiry(w.db, call.id, call.expiresAt, fault).db && w'.cs == w.cs && w'.pass == w.pass
  {
  }

  lemma StoppingWrites(w: World, c: nat, mint: string, fault: Fault)
    requires c in w.calls && w.calls[c].DestroyWriting?
    ensures var call, w' := w.calls[c], Advances(w, c, mint, fault);
            && w'.db == UpdateState(w.db, call.id, Running, Stopping, "destroy requested", call.seen.version, fault).db
            && w'.cs == w.cs && w'.pass == w.pass
  {
  }

  /** Whatever an API call writes is a transaction of the store; containers and the pass
      are none of its business. */
  lemma AdvanceWrites(w: World, c: nat, mint: string, fault: Fault) returns (ops: seq<StoreOp>)
    requires c in w.calls
    ensures |ops| <= 1 && Advances(w, c, mint, fault).db == RunOps(w.db, ops)
    ensures Advances(w, c, mint, fault).cs == w.cs && Advances(w, c, mint, fault).pass == w.pass
    ensures forall op :: op in ops ==> op.StateOp? ==> op.from == Running && op.to == Stopping
  {
    ops := [];
    var call := w.calls[c];
    match call
    case CreateInserting(key, spec, expiresAt, _) =>
      InsertingWrites(w, c, mint, fault);
      if Advances(w, c, mint, fault).db != w.db {
        ops := [InsertOp(key, mint, spec, expiresAt, fault)];
      }
    case KeepaliveWriting(id, expiresAt, _) =>
      RenewingWrites(w, c, mint, fault);
      ops := [ExpiryOp(id, expiresAt, fault)];
    case DestroyWriting(id, seen) =>
      StoppingWrites(w, c, mint, fault);
      ops := [StateOp(id, Running, Stopping, "destroy requested", seen.version, fault)];
    case _ => LookingLeavesTables(w, c, mint, fault);
  }

  // ---- The pass ----

  function FirstOp(item: Item, now: int): Op {
    var action := Decide(item.desired, item.observed, now);
    if action == ActionNone then Done
    else
      match Begin(action, item)
      case Err(_) => Done
      case Ok(op) => op
  }

  function Resume(now: int, todo: seq<Item>): Pass {
    if todo == [] then Idle else Working(now, todo, FirstOp(todo[0], now), false)
  }

  function PassCalls(w: World, f: Faults): World
    requires w.pass.Working? && w.pass.todo != []
  {
    var Working(now, todo, op, _) := w.pass;
    var r := StepOp(Plant(w.db, w.cs), todo[0].id, op, f);
    w.(db := r.plant.db, cs := r.plant.cs,
       pass := if r.next == Done then Resume(now, todo[1..]) else Working(now, todo, r.next, true))
  }

  /** One step; a step that does not apply changes nothing. */
  ghost function Next(w: World, s: Step): World {
    match s
    case Tick(time) => w.(clock := time)
    case StartCreate(_, _, _, _) => Begins(w, s)
    case StartKeepalive(_, _, _) => Begins(w, s)
    case LoadDestroy(_, _, _) => Begins(w, s)
    case AdvanceCall(c, mint, fault) => if c in w.calls then Advances(w, c, mint, fault) else w
    case ListRows(fails) => if w.pass.Idle? && !fails then w.(pass := Listed(w.db.rows)) else w
    case ListContainers(items, fails) =>
      if !w.pass.Listed? then w
      else if fails then w.(pass := Idle)
      else if OuterJoin(w.pass.rows, w.cs, items) then w.(pass := Joined(items))
      else w
    case ReadClock => if w.pass.Joined? then w.(pass := Resume(w.clock, w.pass.items)) else w
    case PassCall(f) => if w.pass.Working? && w.pass.todo != [] then PassCalls(w, f) else w
    case ContainerExit(id) => if id in w.cs then w.(cs := w.cs[id := Exited]) else w
    case ContainerRestart(id) => if id in w.cs then w.(cs := w.cs[id := Up]) else w
    case ContainerVanish(id) => w.(cs := w.cs - {id})
    case Crash => w.(calls := map[], pass := Idle)
  }

  /** A run: any steps, in any order. */
  ghost function Run(w: World, ss: seq<Step>): World
    decreases |ss|
  {
    if ss == [] then w else Next(Run(w, ss[..|ss| - 1]), ss[|ss| - 1])
  }

  // A step without a fault, a crash or an outside change to a container.
  predicate Clean(s: Step) {
    match s
    case LoadDestroy(_, _, fails) => !fails
    case AdvanceCall(_, _, fault) => fault.NoFault?
    case ListRows(fails) => !fails
    case ListContainers(_, fails) => !fails
    case PassCall(f) => f == NO_FAULTS
    case ContainerExit(_) => false
    case ContainerRestart(_) => false
    case ContainerVanish(_) => false
    case Crash => false
    case _ => true
  }

  ghost predicate AllClean(ss: seq<Step>) {
    forall s :: s in ss ==> Clean(s)
  }

  lemma {:induction false} RunAppends(w: World, ss: seq<Step>, ss': seq<Step>)
    ensures Run(w, ss + ss') == Run(Run(w, ss), ss')
    decreases |ss'|
  {
    if ss' == [] {
      assert ss + ss' == ss;
    } else {
      assert (ss + ss')[..|ss + ss'| - 1] == ss + ss'[..|ss'| - 1];
      RunAppends(w, ss, ss'[..|ss'| - 1]);
    }
  }

  /** One pass at a time: what a pass works on, nothing but its own calls and a crash changes;
      nor does a new one begin before it is through. */
  lemma PassIsAlone(w: World, s: Step)
    requires w.pass.Working? && !s.PassCall? && !s.Crash?
    ensures Next(w, s).pass == w.pass
  {
    if s.AdvanceCall? && s.c in w.calls {
      var ops := AdvanceWrites(w, s.c, s.mint, s.fault);
    }
  }

  // ---- The steps are the operations ----

  // What a destroy that ends in r tells its caller, having seen this row or none.
  function ToldDestroy(db: DB, id: string, r: Result<()>): seq<Return> {
    match r
    case Err(_) => []
    case Ok(_) => [DestroyOk(id, if id in db.rows then Some(db.rows[id].state) else None)]
  }

  lemma StoppingSteps(w: World, c: nat, id: string, fault: Fault)
    requires c !in w.calls && id in w.db.rows
    ensures var w' := Next(w.(calls := w.calls[c := DestroyWriting(id, w.db.rows[id])]), AdvanceCall(c, "", fault));
            var tx := DestroyTx(w.db, id, false, fault);
            w' == w.(db := tx.db, told := w.told + ToldDestroy(w.db, id, tx.result))
  {
    assert w.calls[c := DestroyWriting(id, w.db.rows[id])] - {c} == w.calls;
  }

  /** A destroy whose two accesses run back to back is the uninterrupted destroy, and tells
      its caller what that returns. */
  lemma DestroyStepsCompose(w: World, c: nat, id: string, loadFails: bool, fault: Fault)
    requires c !in w.calls
    ensures var w' := Next(Next(w, LoadDestroy(c, id, loadFails)), AdvanceCall(c, "", fault));
            var tx := DestroyTx(w.db, id, loadFails, fault);
            w' == w.(db := tx.db, told := w.told + ToldDestroy(w.db, id, tx.result))
  {
    if !loadFails && id in w.db.rows {
      StoppingSteps(w, c, id, fault);
    }
  }

  /** A keepalive run back to back is the uninterrupted keepalive. */
  lemma KeepaliveStepsCompose(w: World, c: nat, id: string, ttl: int, fault: Fault)
    requires c !in w.calls
    ensures var w' := Next(Next(w, StartKeepalive(c, id, ttl)), AdvanceCall(c, "", fault));
            var tx := KeepaliveTx(w.db, id, ttl, w.clock, fault);
            w' == w.(db := tx.db, leases := if tx.result.Ok? then w.leases[id := w.clock] else w.leases)
  {
    var admitted := AdmitKeepalive(ttl, w.clock);
    if admitted.Ok? {
      assert w.calls[c := KeepaliveWriting(id, admitted.value, w.clock)] - {c} == w.calls;
    }
  }

  // A create whose accesses run back to back.
  ghost function CreateAtOnce(w: World, c: nat, key: string, spec: SpecFile, ttl: int, mint: string, look: Fault,
      fault: Fault): World
  {
    Next(Next(Next(w, StartCreate(c, key, spec, ttl)), AdvanceCall(c, mint, look)), AdvanceCall(c, mint, fault))
  }

  function Told(key: string, r: Result<Sandbox>): seq<Return> {
    match r
    case Err(_) => []
    case Ok(sbx) => [CreateOk(key, sbx.id, sbx.row.spec)]
  }

  lemma ReplaySteps(w: World, c: nat, key: string, id: string, mint: string, fault: Fault)
    requires c in w.calls && w.calls[c] == CreateFetching(key, id)
    ensures var w' := Next(w, AdvanceCall(c, mint, fault));
            var r := FetchRow(w.db, id, !fault.NoFault?);
            w' == w.(calls := w.calls - {c}, told := w.told + Told(key, r))
  {
  }

  lemma InsertSteps(w: World, c: nat, call: Call, mint: string, fault: Fault)
    requires c in w.calls && w.calls[c] == call && call.CreateInserting? && ValidSandboxID(mint)
    ensures var w' := Next(w, AdvanceCall(c, mint, fault));
            var tx := InsertSandbox(w.db, call.key, mint, call.spec, call.expiresAt, fault);
            && w' == w.(db := tx.db, calls := w.calls - {c},
                        told := w.told + (if tx.result.Ok? then [CreateOk(call.key, mint, call.spec)] else []),
                        leases := if tx.result.Ok? then w.leases[mint := call.readAt] else w.leases)
            && (tx.result.Ok? ==> tx.result.value.spec == call.spec)
  {
  }

  // A create that made a row leases it; a replay leaves the lease alone.
  function LeasesAfter(w: World, key: string, mint: string, readAt: int, tx: Tx<Sandbox>): map<string, int> {
    if tx.result.Ok? && key !in w.db.keys then w.leases[mint := readAt] else w.leases
  }

  lemma StoreStepsCompose(w: World, c: nat, key: string, spec: SpecFile, expiresAt: int, readAt: int, mint: string,
      look: Fault, fault: Fault)
    requires c in w.calls && w.calls[c] == CreateLooking(key, spec, expiresAt, readAt)
    requires expiresAt != ZERO_TIME && ValidSandboxID(mint)
    ensures var w' := Next(Next(w, AdvanceCall(c, mint, look)), AdvanceCall(c, mint, fault));
            var tx := CreateOrReplay(w.db, key, mint, spec, expiresAt,
              CreateFaults(!look.NoFault?, !fault.NoFault?, fault));
            w' == w.(db := tx.db, calls := w.calls - {c}, told := w.told + Told(key, tx.result),
                     leases := LeasesAfter(w, key, mint, readAt, tx))
  {
    var w1 := Next(w, AdvanceCall(c, mint, look));
    if !look.NoFault? {
      assert w1 == Returned(w, c, None);
    } else if key in w.db.keys {
      ReplaySteps(w1, c, key, w.db.keys[key], mint, fault);
    } else {
      InsertSteps(w1, c, CreateInserting(key, spec, expiresAt, readAt), mint, fault);
    }
  }

  /** Likewise a create is the uninterrupted create, replay included. */
  lemma CreateStepsCompose(w: World, c: nat, key: string, spec: SpecFile, ttl: int, mint: string, look: Fault,
      fault: Fault)
    requires c !in w.calls && ValidSandboxID(mint)
    ensures var w' := CreateAtOnce(w, c, key, spec, ttl, mint, look, fault);
            var tx := CreateTx(w.db, key, spec, ttl, w.clock, mint,
              CreateFaults(!look.NoFault?, !fault.NoFault?, fault));
            w' == w.(db := tx.db, told := w.told + Told(key, tx.result),
                     leases := LeasesAfter(w, key, mint, w.clock, tx))
  {
    var w1 := Next(w, StartCreate(c, key, spec, ttl));
    var admitted := AdmitSandbox(spec, ttl, w.clock);
    if admitted.Ok? && admitted.value != ZERO_TIME {
      StoreStepsCompose(w1, c, key, spec, admitted.value, w.clock, mint, look, fault);
      assert w1.calls - {c} == w.calls;
    } else {
      assert w1 == w;
    }
  }

  lemma RunOne(w: World, s: Step)
    ensures Run(w, [s]) == Next(w, s)
  {
  }

  lemma RunThen(w: World, s: Step, ss: seq<Step>)
    ensures Run(w, [s] + ss) == Run(Next(w, s), ss)
  {
    RunOne(w, s);
    RunAppends(w, [s], ss);
  }

  /** An item whose calls run back to back gets exactly its uninterrupted handling. */
  lemma {:induction false} ItemStepsCompose(w: World, f: Faults) returns (ss: seq<Step>)
    requires w.pass.Working? && w.pass.todo != []
    ensures var r := Finish(Plant(w.db, w.cs), w.pass.todo[0].id, w.pass.op, f).plant;
            Run(w, ss) == w.(db := r.db, cs := r.cs, pass := Resume(w.pass.now, w.pass.todo[1..]))
    ensures forall s :: s in ss ==> s == PassCall(f)
    decreases Rank(w.pass.op)
  {
    var w1 := Next(w, PassCall(f));
    var r := StepOp(Plant(w.db, w.cs), w.pass.todo[0].id, w.pass.op, f);
    if r.next == Done {
      ss := [PassCall(f)];
      RunOne(w, PassCall(f));
      assert r.error.None? ==> Finish(r.plant, w.pass.todo[0].id, Done, f) == Outcome(r.plant, None);
    } else {
      var rest := ItemStepsCompose(w1, f);
      ss := [PassCall(f)] + rest;
      RunThen(w, PassCall(f), rest);
    }
  }

  lemma FirstOpFinishes(p: Plant, item: Item, now: int, plan: Plan)
    ensures Finish(p, item.id, FirstOp(item, now), FaultsFor(plan, item.id)).plant
         == var action := Decide(item.desired, item.observed, now);
            if action == ActionNone then p else Handle(p, action, item, FaultsFor(plan, item.id)).plant
  {
  }

  /** A pass nothing interrupts is the pass as a whole, whatever faults strike it. */
  lemma {:induction false} PassStepsCompose(w: World, now: int, items: seq<Item>, plan: Plan) returns (ss: seq<Step>)
    requires w.pass == Resume(now, items)
    ensures var r := RunPass(Plant(w.db, w.cs), items, now, plan).plant;
            Run(w, ss) == w.(db := r.db, cs := r.cs, pass := Idle)
    ensures forall s :: s in ss ==> s.PassCall?
    decreases |items|
  {
    if items == [] {
      ss := [];
    } else {
      var item := items[0];
      var first := ItemStepsCompose(w, FaultsFor(plan, item.id));
      var w1 := Run(w, first);
      FirstOpFinishes(Plant(w.db, w.cs), item, now, plan);
      var rest := PassStepsCompose(w1, now, items[1..], plan);
      ss := first + rest;
      RunAppends(w, first, rest);
    }
  }
}
