/** What every run of the protocol keeps, with any faults, crashes, outside exits and
    number of callers. */
module Safety {
  import opened Wrappers
  import opened Lifecycle
  import opened SpecResolve
  import opened Tables
  import opened RuntimeMap
  import opened Decision
  import opened Passes
  import opened Wire
  import opened Control
  import opened Protocol

  // ---- The invariant, part by part ----

  // A row read earlier in the run.
  ghost predicate Seen(db: DB, id: string, row: Row) {
    id in db.rows && Later(row, db.rows[id]) && StepsFit(row.state, row.version - 1)
  }

  predicate Leased(expiresAt: int, readAt: int) {
    readAt < expiresAt <= readAt + MAX_TTL
  }

  ghost predicate RowOk(w: World, id: string) {
    id in w.db.rows ==>
      && ValidSandboxID(id)
      && Resolves(w.db.rows[id].spec)
      && id in w.leases && Leased(w.db.rows[id].expiresAt, w.leases[id])
  }

  ghost predicate CallOk(db: DB, call: Call) {
    match call
    case CreateLooking(_, spec, expiresAt, readAt) => Resolves(spec) && Leased(expiresAt, readAt)
    case CreateFetching(key, id) => key in db.keys && db.keys[key] == id
    case CreateInserting(_, spec, expiresAt, readAt) => Resolves(spec) && Leased(expiresAt, readAt)
    case KeepaliveWriting(_, expiresAt, readAt) => Leased(expiresAt, readAt)
    case DestroyWriting(id, seen) => Seen(db, id, seen)
  }

  // What a caller was told still holds.
  ghost predicate ReturnOk(db: DB, r: Return) {
    match r
    case CreateOk(key, id, spec) => key in db.keys && db.keys[key] == id && id in db.rows && db.rows[id].spec == spec
    case DestroyOk(id, Some(state)) => state != Pending ==> id in db.rows && Settled(db.rows[id].state)
    case DestroyOk(_, None) => true
  }

  ghost predicate ItemSeen(db: DB, item: Item) {
    item.desired.Some? ==> Seen(db, item.id, item.desired.value) && Resolves(item.desired.value.spec)
  }

  // A later call of an item, by the call the item began with.
  predicate Follows(first: Op, op: Op) {
    match first
    case CallCreate(_, version) => op == WriteBack(version) || op.Undo?
    case CallDestroy(next) => op == next && next.Mark?
    case _ => false
  }

  // A mark that follows a destroy finds the container gone.
  predicate Gone(id: string, op: Op, cs: map<string, CState>) {
    op.Mark? ==> id !in cs
  }

  ghost predicate PassOk(db: DB, cs: map<string, CState>, pass: Pass) {
    match pass
    case Idle => true
    case Listed(rows) => forall id :: id in rows ==> Seen(db, id, rows[id]) && Resolves(rows[id].spec)
    case Joined(items) =>
      && DistinctIds(items)
      && (forall i :: 0 <= i < |items| ==> ItemSeen(db, items[i]))
      && (forall i :: 0 <= i < |items| && items[i].observed.None? ==> items[i].id !in cs)
    case Working(now, todo, op, begun) =>
      && todo != []
      && DistinctIds(todo)
      && (forall i :: 0 <= i < |todo| ==> ItemSeen(db, todo[i]))
      && (forall i :: 0 <= i < |todo| && (i > 0 || !begun) && todo[i].observed.None? ==> todo[i].id !in cs)
      && (if begun then Follows(FirstOp(todo[0], now), op) && Gone(todo[0].id, op, cs)
          else op == FirstOp(todo[0], now))
  }

  ghost predicate Inv(w: World) {
    && Sound(w.db)
    && (forall id :: RowOk(w, id))
    && (forall id :: id in w.cs ==> id in w.db.rows)
    && (forall c :: c in w.calls ==> CallOk(w.db, w.calls[c]))
    && (forall k :: 0 <= k < |w.told| ==> ReturnOk(w.db, w.told[k]))
    && PassOk(w.db, w.cs, w.pass)
  }

  // ---- Facts once true stay true as the tables grow ----

  lemma CallPersists(db: DB, db': DB, call: Call)
    requires Grown(db, db') && CallOk(db, call)
    ensures CallOk(db', call)
  {
  }

  lemma ReturnPersists(db: DB, db': DB, r: Return)
    requires Grown(db, db') && ReturnOk(db, r)
    ensures ReturnOk(db', r)
  {
  }

  lemma ItemPersists(db: DB, db': DB, item: Item)
    requires Grown(db, db') && ItemSeen(db, item)
    ensures ItemSeen(db', item)
  {
  }

  lemma PassPersists(db: DB, db': DB, cs: map<string, CState>, pass: Pass)
    requires Grown(db, db') && PassOk(db, cs, pass)
    ensures PassOk(db', cs, pass)
  {
  }

  // The parts about calls, returns and the pass carry over to grown tables.
  lemma GrowthKeepsRest(w: World, db': DB)
    requires Inv(w) && Grown(w.db, db')
    ensures forall id :: id in w.cs ==> id in db'.rows
    ensures forall c :: c in w.calls ==> CallOk(db', w.calls[c])
    ensures forall k :: 0 <= k < |w.told| ==> ReturnOk(db', w.told[k])
    ensures PassOk(db', w.cs, w.pass)
  {
    forall c | c in w.calls
      ensures CallOk(db', w.calls[c])
    {
      CallPersists(w.db, db', w.calls[c]);
    }
    forall k | 0 <= k < |w.told|
      ensures ReturnOk(db', w.told[k])
    {
      ReturnPersists(w.db, db', w.told[k]);
    }
    PassPersists(w.db, db', w.cs, w.pass);
  }

  // A transition changes neither spec nor expiry of any row.
  lemma TransitionKeepsRowsOk(w: World, w': World, id: string, from: TaskState, to: TaskState, reason: string,
      version: int, f: Fault)
    requires forall i :: RowOk(w, i)
    requires w'.leases == w.leases && w'.db == UpdateState(w.db, id, from, to, reason, version, f).db
    ensures forall i :: RowOk(w', i)
  {
    forall i
      ensures RowOk(w', i)
    {
      assert RowOk(w, i);
    }
  }

  // ---- API steps ----

  // A change that leaves rows, leases and tables alone.
  lemma SameRowsOk(w: World, w': World)
    requires forall id :: RowOk(w, id)
    requires w'.db == w.db && w'.leases == w.leases
    ensures forall id :: RowOk(w', id)
  {
    forall id
      ensures RowOk(w', id)
    {
      assert RowOk(w, id);
    }
  }

  lemma AddCall(w: World, c: nat, call: Call)
    requires Inv(w) && CallOk(w.db, call)
    ensures Inv(w.(calls := w.calls[c := call]))
  {
    SameRowsOk(w, w.(calls := w.calls[c := call]));
  }

  lemma Tell(w: World, r: Return)
    requires Inv(w) && ReturnOk(w.db, r)
    ensures Inv(w.(told := w.told + [r]))
  {
    SameRowsOk(w, w.(told := w.told + [r]));
  }

  lemma SetPass(w: World, pass: Pass)
    requires Inv(w) && PassOk(w.db, w.cs, pass)
    ensures Inv(w.(pass := pass))
  {
    SameRowsOk(w, w.(pass := pass));
  }

  lemma CurrentIsSeen(db: DB, id: string)
    requires Sound(db) && id in db.rows
    ensures Seen(db, id, db.rows[id])
  {
    assert RowSound(db, id);
    VersionFollowsState(db, id);
  }

  lemma BeginsKeepsInv(w: World, s: Step)
    requires Inv(w) && (s.StartCreate? || s.StartKeepalive? || s.LoadDestroy?)
    ensures Inv(Begins(w, s))
  {
    if s.c !in w.calls {
      match s
      case StartCreate(c, key, spec, ttl) =>
        var admitted := AdmitSandbox(spec, ttl, w.clock);
        if admitted.Ok? {
          AddCall(w, c, CreateLooking(key, spec, admitted.value, w.clock));
        }
      case StartKeepalive(c, id, ttl) =>
        var admitted := AdmitKeepalive(ttl, w.clock);
        if admitted.Ok? {
          AddCall(w, c, KeepaliveWriting(id, admitted.value, w.clock));
        }
      case LoadDestroy(c, id, fails) =>
        if id in w.db.rows {
          CurrentIsSeen(w.db, id);
          AddCall(w, c, DestroyWriting(id, w.db.rows[id]));
        } else {
          Tell(w, DestroyOk(id, None));
        }
    }
  }

  // Call c returns, saying r; nothing else about w changes but tables and leases.
  lemma ReturnKeepsInv(w: World, c: nat, db': DB, leases': map<string, int>, r: Option<Return>)
    requires Inv(w) && Sound(db') && Grown(w.db, db')
    requires forall id :: RowOk(w.(db := db', leases := leases'), id)
    requires r.Some? ==> ReturnOk(db', r.value)
    ensures Inv(Returned(w.(db := db', leases := leases'), c, r))
  {
    GrowthKeepsRest(w, db');
    var w' := Returned(w.(db := db', leases := leases'), c, r);
    forall id
      ensures RowOk(w', id)
    {
      assert RowOk(w.(db := db', leases := leases'), id);
    }
  }

  lemma NothingGrown(db: DB)
    ensures Grown(db, db)
  {
  }

  lemma LooksKeepsInv(w: World, c: nat, key: string, spec: SpecFile, expiresAt: int, readAt: int, fault: Fault)
    requires Inv(w) && Resolves(spec) && Leased(expiresAt, readAt)
    ensures Inv(Looks(w, c, key, spec, expiresAt, readAt, fault))
  {
    if !fault.NoFault? {
      NothingGrown(w.db);
      ReturnKeepsInv(w, c, w.db, w.leases, None);
    } else if key in w.db.keys {
      AddCall(w, c, CreateFetching(key, w.db.keys[key]));
    } else {
      AddCall(w, c, CreateInserting(key, spec, expiresAt, readAt));
    }
  }

  lemma FetchesKeepsInv(w: World, c: nat, key: string, id: string, fault: Fault)
    requires Inv(w) && key in w.db.keys && w.db.keys[key] == id
    ensures Inv(Fetches(w, c, key, id, fault))
  {
    NothingGrown(w.db);
    var found := FetchRow(w.db, id, !fault.NoFault?);
    ReturnKeepsInv(w, c, w.db, w.leases, if found.Ok? then Some(CreateOk(key, id, found.value.row.spec)) else None);
  }

  lemma InsertedRowOk(w: World, w': World, mint: string, spec: SpecFile, expiresAt: int, readAt: int)
    requires forall id :: RowOk(w, id)
    requires ValidSandboxID(mint) && Resolves(spec) && Leased(expiresAt, readAt)
    requires w'.db.rows == w.db.rows[mint := Row(1, Pending, spec, expiresAt)] && w'.leases == w.leases[mint := readAt]
    ensures forall id :: RowOk(w', id)
  {
    forall id
      ensures RowOk(w', id)
    {
      assert RowOk(w, id);
    }
  }

  lemma InsertedTables(db: DB, key: string, mint: string, spec: SpecFile, expiresAt: int, fault: Fault)
    requires Sound(db) && InsertSandbox(db, key, mint, spec, expiresAt, fault).result.Ok?
    ensures var db' := InsertSandbox(db, key, mint, spec, expiresAt, fault).db;
            && db'.rows == db.rows[mint := Row(1, Pending, spec, expiresAt)]
            && key in db'.keys && db'.keys[key] == mint
  {
  }

  lemma InsertedKeepsInv(w: World, c: nat, db': DB, key: string, mint: string, spec: SpecFile, expiresAt: int,
      readAt: int)
    requires Inv(w) && Sound(db') && Grown(w.db, db')
    requires ValidSandboxID(mint) && Resolves(spec) && Leased(expiresAt, readAt)
    requires db'.rows == w.db.rows[mint := Row(1, Pending, spec, expiresAt)] && key in db'.keys && db'.keys[key] == mint
    ensures Inv(Returned(w.(db := db', leases := w.leases[mint := readAt]), c, Some(CreateOk(key, mint, spec))))
  {
    var leases' := w.leases[mint := readAt];
    InsertedRowOk(w, w.(db := db', leases := leases'), mint, spec, expiresAt, readAt);
    ReturnKeepsInv(w, c, db', leases', Some(CreateOk(key, mint, spec)));
  }

  lemma InsertsKeepsInv(w: World, c: nat, call: Call, mint: string, fault: Fault)
    requires Inv(w) && call.CreateInserting? && Resolves(call.spec) && Leased(call.expiresAt, call.readAt)
    ensures Inv(Inserts(w, c, call, mint, fault))
  {
    if ValidSandboxID(mint) {
      var tx := InsertSandbox(w.db, call.key, mint, call.spec, call.expiresAt, fault);
      ApplyKeepsSound(w.db, InsertOp(call.key, mint, call.spec, call.expiresAt, fault));
      if tx.result.Ok? {
        InsertedTables(w.db, call.key, mint, call.spec, call.expiresAt, fault);
        InsertedKeepsInv(w, c, tx.db, call.key, mint, call.spec, call.expiresAt, call.readAt);
      } else {
        ReturnKeepsInv(w, c, w.db, w.leases, None);
      }
    }
  }

  lemma RenewedRowsOk(w: World, w': World, id: string, expiresAt: int, readAt: int)
    requires (forall i :: RowOk(w, i)) && id in w.db.rows && Leased(expiresAt, readAt)
    requires w'.db.rows == w.db.rows[id := w.db.rows[id].(expiresAt := expiresAt)]
    requires w'.leases == w.leases[id := readAt]
    ensures forall i :: RowOk(w', i)
  {
    forall i
      ensures RowOk(w', i)
    {
      assert RowOk(w, i);
    }
  }

  lemma RenewsKeepsInv(w: World, c: nat, id: string, expiresAt: int, readAt: int, fault: Fault)
    requires Inv(w) && Leased(expiresAt, readAt)
    ensures Inv(Renews(w, c, id, expiresAt, readAt, fault))
  {
    var tx := UpdateExpiry(w.db, id, expiresAt, fault);
    ApplyKeepsSound(w.db, ExpiryOp(id, expiresAt, fault));
    if tx.result.Ok? {
      var leases' := w.leases[id := readAt];
      RenewalCommits(w.db, id, expiresAt, fault);
      RenewedRowsOk(w, w.(db := tx.db, leases := leases'), id, expiresAt, readAt);
      ReturnKeepsInv(w, c, tx.db, leases', None);
    } else {
      ReturnKeepsInv(w, c, w.db, w.leases, None);
    }
  }

  /** The guarded write of a destroy, whatever ran since its read: if it reports success
      and had read anything but pending, the row is settled now. */
  lemma DestroyWriteSettles(db: DB, id: string, seen: Row, fault: Fault)
    requires Sound(db) && Seen(db, id, seen) && seen.state != Pending
    requires DestroyVerdict(UpdateState(db, id, Running, Stopping, "destroy requested", seen.version, fault).result).Ok?
    ensures var db' := UpdateState(db, id, Running, Stopping, "destroy requested", seen.version, fault).db;
            id in db'.rows && Settled(db'.rows[id].state)
  {
    assert RowSound(db, id);
    VersionFollowsState(db, id);
    TransitionCommits(db, id, Running, Stopping, "destroy requested", seen.version, fault);
  }

  lemma StopsKeepsInv(w: World, c: nat, id: string, seen: Row, fault: Fault)
    requires Inv(w) && Seen(w.db, id, seen)
    ensures Inv(Stops(w, c, id, seen, fault))
  {
    var tx := UpdateState(w.db, id, Running, Stopping, "destroy requested", seen.version, fault);
    ApplyKeepsSound(w.db, StateOp(id, Running, Stopping, "destroy requested", seen.version, fault));
    TransitionKeepsRowsOk(w, w.(db := tx.db), id, Running, Stopping, "destroy requested", seen.version, fault);
    var r := if DestroyVerdict(tx.result).Ok? then Some(DestroyOk(id, Some(seen.state))) else None;
    if r.Some? && seen.state != Pending {
      DestroyWriteSettles(w.db, id, seen, fault);
    }
    assert w.(db := tx.db, leases := w.leases) == w.(db := tx.db);
    ReturnKeepsInv(w, c, tx.db, w.leases, r);
  }

  lemma AdvancesKeepsInv(w: World, c: nat, mint: string, fault: Fault)
    requires Inv(w) && c in w.calls
    ensures Inv(Advances(w, c, mint, fault))
  {
    assert CallOk(w.db, w.calls[c]);
    match w.calls[c]
    case CreateLooking(key, spec, expiresAt, readAt) => LooksKeepsInv(w, c, key, spec, expiresAt, readAt, fault);
    case CreateFetching(key, id) => FetchesKeepsInv(w, c, key, id, fault);
    case CreateInserting(_, _, _, _) => InsertsKeepsInv(w, c, w.calls[c], mint, fault);
    case KeepaliveWriting(id, expiresAt, readAt) => RenewsKeepsInv(w, c, id, expiresAt, readAt, fault);
    case DestroyWriting(id, seen) => StopsKeepsInv(w, c, id, seen, fault);
  }

  // ---- Pass steps ----

  lemma ListRowsKeepsInv(w: World)
    requires Inv(w)
    ensures PassOk(w.db, w.cs, Listed(w.db.rows))
  {
    forall id | id in w.db.rows
      ensures Seen(w.db, id, w.db.rows[id]) && Resolves(w.db.rows[id].spec)
    {
      assert RowOk(w, id) && RowSound(w.db, id);
      VersionFollowsState(w.db, id);
    }
  }

  lemma ResumeOk(db: DB, cs: map<string, CState>, now: int, todo: seq<Item>)
    requires DistinctIds(todo)
    requires forall i :: 0 <= i < |todo| ==> ItemSeen(db, todo[i])
    requires forall i :: 0 <= i < |todo| && todo[i].observed.None? ==> todo[i].id !in cs
    ensures PassOk(db, cs, Resume(now, todo))
  {
  }

  lemma JoinOk(db: DB, cs: map<string, CState>, rows: map<string, Row>, items: seq<Item>)
    requires PassOk(db, cs, Listed(rows)) && OuterJoin(rows, cs, items)
    ensures PassOk(db, cs, Joined(items))
  {
    forall i | 0 <= i < |items|
      ensures ItemSeen(db, items[i])
    {
      assert items[i].desired == Lookup(rows, items[i].id);
    }
  }

  /** In every reachable world, a create is called only for an id that has a row and no
      container: the listing of this very pass showed none, and nobody else makes one. */
  lemma CreateOnlyWhenAbsent(w: World)
    requires Inv(w) && w.pass.Working? && w.pass.op.CallCreate?
    ensures w.pass.todo[0].id !in w.cs && w.pass.todo[0].id in w.db.rows
  {
    var item := w.pass.todo[0];
    assert ItemSeen(w.db, item);
    assert Begin(Decide(item.desired, item.observed, w.pass.now), item) == Ok(w.pass.op);
  }

  // What one call does to containers: nothing but to its own id.
  lemma StepOpContainers(p: Plant, id: string, op: Op, f: Faults)
    ensures var cs' := StepOp(p, id, op, f).plant.cs;
            && (forall other :: other != id ==> (other in cs' <==> other in p.cs))
            && (id in cs' ==> id in p.cs || op.CallCreate?)
  {
  }

  lemma FirstOpLeadsOn(p: Plant, item: Item, now: int, f: Faults)
    ensures var first := FirstOp(item, now);
            var r := StepOp(p, item.id, first, f);
            r.next == Done || (Follows(first, r.next) && Gone(item.id, r.next, r.plant.cs))
  {
  }

  lemma LaterOpLeadsOn(p: Plant, id: string, first: Op, op: Op, f: Faults)
    requires Follows(first, op)
    ensures var r := StepOp(p, id, op, f);
            r.next == Done || (Follows(first, r.next) && Gone(id, r.next, r.plant.cs))
  {
  }

  lemma StepOpKeepsRowsOk(w: World, w': World, id: string, op: Op, f: Faults)
    requires forall i :: RowOk(w, i)
    requires w'.leases == w.leases && w'.db == StepOp(Plant(w.db, w.cs), id, op, f).plant.db
    ensures forall i :: RowOk(w', i)
  {
    match op
    case WriteBack(version) =>
      TransitionKeepsRowsOk(w, w', id, Pending, Running, "reconciler created container", version, f.write);
    case Mark(from, to, reason, version) =>
      TransitionKeepsRowsOk(w, w', id, from, to, reason, version, f.write);
    case _ =>
      forall i
        ensures RowOk(w', i)
      {
        assert RowOk(w, i);
      }
  }

  // After a call for the first item, what is known of the items still holds, and no other
  // item has got a container.
  lemma ItemsOutliveCall(w: World, w': World, f: Faults)
    requires Inv(w) && w.pass.Working? && Grown(w.db, w'.db)
    requires w'.cs == StepOp(Plant(w.db, w.cs), w.pass.todo[0].id, w.pass.op, f).plant.cs
    ensures forall i :: 0 <= i < |w.pass.todo| ==> ItemSeen(w'.db, w.pass.todo[i])
    ensures forall i :: 0 < i < |w.pass.todo| && w.pass.todo[i].observed.None? ==> w.pass.todo[i].id !in w'.cs
  {
    var todo := w.pass.todo;
    StepOpContainers(Plant(w.db, w.cs), todo[0].id, w.pass.op, f);
    forall i | 0 <= i < |todo|
      ensures ItemSeen(w'.db, todo[i])
    {
      ItemPersists(w.db, w'.db, todo[i]);
    }
    forall i | 0 < i < |todo| && todo[i].observed.None?
      ensures todo[i].id !in w'.cs
    {
      assert todo[i].id != todo[0].id;
    }
  }

  lemma CallLeadsOn(w: World, f: Faults)
    requires PassOk(w.db, w.cs, w.pass) && w.pass.Working?
    ensures var item := w.pass.todo[0];
            var r := StepOp(Plant(w.db, w.cs), item.id, w.pass.op, f);
            r.next == Done || (Follows(FirstOp(item, w.pass.now), r.next) && Gone(item.id, r.next, r.plant.cs))
  {
    var item := w.pass.todo[0];
    if w.pass.begun {
      LaterOpLeadsOn(Plant(w.db, w.cs), item.id, FirstOp(item, w.pass.now), w.pass.op, f);
    } else {
      FirstOpLeadsOn(Plant(w.db, w.cs), item, w.pass.now, f);
    }
  }

  lemma PassCallKeepsPassOk(w: World, f: Faults)
    requires Inv(w) && w.pass.Working?
    ensures var w' := PassCalls(w, f); Grown(w.db, w'.db) ==> PassOk(w'.db, w'.cs, w'.pass)
  {
    var w' := PassCalls(w, f);
    if Grown(w.db, w'.db) {
      ItemsOutliveCall(w, w', f);
      CallLeadsOn(w, f);
      ResumeOk(w'.db, w'.cs, w.pass.now, w.pass.todo[1..]);
    }
  }

  lemma PassCallKeepsInv(w: World, f: Faults)
    requires Inv(w) && w.pass.Working?
    ensures Inv(PassCalls(w, f))
  {
    var w' := PassCalls(w, f);
    var p := Plant(w.db, w.cs);
    Passes.StepOpKeepsSound(p, w.pass.todo[0].id, w.pass.op, f);
    PassCallKeepsPassOk(w, f);
    GrowthKeepsRest(w, w'.db);
    StepOpKeepsRowsOk(w, w', w.pass.todo[0].id, w.pass.op, f);
    StepOpContainers(p, w.pass.todo[0].id, w.pass.op, f);
    if w.pass.op.CallCreate? {
      CreateOnlyWhenAbsent(w);
    }
  }

  // ---- Every step, every run ----

  lemma ListingKeepsInv(w: World, items: seq<Item>, fails: bool)
    requires Inv(w)
    ensures Inv(Next(w, ListContainers(items, fails)))
  {
    SetPass(w, Idle);
    if w.pass.Listed? && OuterJoin(w.pass.rows, w.cs, items) {
      JoinOk(w.db, w.cs, w.pass.rows, items);
      SetPass(w, Joined(items));
    }
  }

  lemma ReadClockKeepsInv(w: World)
    requires Inv(w)
    ensures Inv(Next(w, ReadClock))
  {
    if w.pass.Joined? {
      ResumeOk(w.db, w.cs, w.clock, w.pass.items);
      SetPass(w, Resume(w.clock, w.pass.items));
    }
  }

  // What befalls containers and clock from outside, and a crash.
  predicate FromOutside(s: Step) {
    s.Tick? || s.ContainerExit? || s.ContainerRestart? || s.ContainerVanish? || s.Crash?
  }

  lemma OutsideKeepsInv(w: World, s: Step)
    requires Inv(w) && FromOutside(s)
    ensures Inv(Next(w, s))
  {
    SameRowsOk(w, Next(w, s));
  }

  lemma ListRowsStepKeepsInv(w: World, fails: bool)
    requires Inv(w)
    ensures Inv(Next(w, ListRows(fails)))
  {
    ListRowsKeepsInv(w);
    SetPass(w, Listed(w.db.rows));
  }

  lemma BeginsStepKeepsInv(w: World, s: Step)
    requires Inv(w) && (s.StartCreate? || s.StartKeepalive? || s.LoadDestroy?)
    ensures Inv(Next(w, s))
  {
    BeginsKeepsInv(w, s);
  }

  lemma AdvanceStepKeepsInv(w: World, c: nat, mint: string, fault: Fault)
    requires Inv(w)
    ensures Inv(Next(w, AdvanceCall(c, mint, fault)))
  {
    if c in w.calls {
      AdvancesKeepsInv(w, c, mint, fault);
    }
  }

  lemma PassStepKeepsInv(w: World, f: Faults)
    requires Inv(w)
    ensures Inv(Next(w, PassCall(f)))
  {
    if w.pass.Working? && w.pass.todo != [] {
      PassCallKeepsInv(w, f);
    }
  }

  lemma NextKeepsInv(w: World, s: Step)
    requires Inv(w)
    ensures Inv(Next(w, s))
  {
    match s
    case AdvanceCall(c, mint, fault) => AdvanceStepKeepsInv(w, c, mint, fault);
    case ListRows(fails) => ListRowsStepKeepsInv(w, fails);
    case ListContainers(items, fails) => ListingKeepsInv(w, items, fails);
    case ReadClock => ReadClockKeepsInv(w);
    case PassCall(f) => PassStepKeepsInv(w, f);
    case _ =>
      if FromOutside(s) {
        OutsideKeepsInv(w, s);
      } else {
        BeginsStepKeepsInv(w, s);
      }
  }

  lemma InitInv()
    ensures Inv(INIT)
  {
  }

  lemma {:induction false} RunKeepsInv(w: World, ss: seq<Step>)
    requires Inv(w)
    ensures Inv(Run(w, ss))
    decreases |ss|
  {
    if ss != [] {
      RunKeepsInv(w, ss[..|ss| - 1]);
      NextKeepsInv(Run(w, ss[..|ss| - 1]), ss[|ss| - 1]);
    }
  }

  lemma RunsAreSafe(ss: seq<Step>)
    ensures Inv(Run(INIT, ss))
  {
    InitInv();
    RunKeepsInv(INIT, ss);
  }
}
