/** What callers and operators can rely on, over whole runs of the protocol, and where
    natural expectations fail. */
module Guarantees {
  import opened Wrappers
  import opened Lifecycle
  import opened SpecResolve
  import opened Tables
  import opened RuntimeMap
  import opened Decision
  import opened Passes
  import opened Protocol
  import opened Safety

  lemma RunExtends(ss: seq<Step>, s: Step)
    ensures Run(INIT, ss + [s]) == Next(Run(INIT, ss), s)
  {
  }

  // ---- Histories ----

  /** Under every interleaving and fault, a sandbox's events run from version 1 to the
      row's version without gaps, along legal edges to the row's state, and number at
      most four. */
  lemma HistoryOfEveryRun(ss: seq<Step>, id: string)
    requires id in Run(INIT, ss).db.rows
    ensures var db := Run(INIT, ss).db;
            && Chain(History(db.events, id), id, db.rows[id].state, db.rows[id].version)
            && |History(db.events, id)| <= 4
  {
    RunsAreSafe(ss);
    assert RowSound(Run(INIT, ss).db, id);
    VersionFollowsState(Run(INIT, ss).db, id);
  }

  // ---- Idempotent creates ----

  /** All successful creates with one key, in any run, returned one sandbox and one
      spec: those of the row the key still names. */
  lemma CreatesWithOneKeyAgree(ss: seq<Step>, i: nat, j: nat, key: string)
    requires var told := Run(INIT, ss).told;
             && i < |told| && told[i].CreateOk? && told[i].key == key
             && j < |told| && told[j].CreateOk? && told[j].key == key
    ensures var w := Run(INIT, ss);
            && w.told[i].id == w.told[j].id && w.told[i].spec == w.told[j].spec
            && key in w.db.keys && w.db.keys[key] == w.told[i].id
            && w.told[i].id in w.db.rows && w.db.rows[w.told[i].id].spec == w.told[i].spec
            && (forall other :: other in w.db.keys && w.db.keys[other] == w.told[i].id ==> other == key)
  {
    RunsAreSafe(ss);
    var w := Run(INIT, ss);
    assert ReturnOk(w.db, w.told[i]) && ReturnOk(w.db, w.told[j]);
  }

  // ---- Destroy ----

  /** The guarantee a caller might expect of a destroy that returned success: at every
      later point of every run the sandbox is settled. */
  ghost predicate DestroySticks(seen: Option<TaskState>) {
    forall ss, id :: DestroyOk(id, seen) in Run(INIT, ss).told ==>
      id in Run(INIT, ss).db.rows && Settled(Run(INIT, ss).db.rows[id].state)
  }

  // The UUID 00000000-0000-0000-0000-000000000001.
  const SAMPLE_UUID: string := seq(36, k => if IsDash(k) then '-' else if k == 35 then '1' else '0')
  const SAMPLE_ID: string := "sbx_" + SAMPLE_UUID

  lemma SampleIdIsValid()
    ensures ValidSandboxID(SAMPLE_ID)
  {
    assert SAMPLE_ID[..4] == "sbx_" && SAMPLE_ID[4..] == SAMPLE_UUID;
    assert SAMPLE_UUID[35] == '1';
  }

  const KEY := "key"

  // A world whose one sandbox is pending and unexpired, nothing else going on.
  predicate FreshlyCreated(w: World, id: string) {
    && w.db.rows == map[id := Row(1, Pending, EMPTY_SPEC, DEFAULT_TTL)]
    && w.cs == map[] && w.clock == 0 && w.calls == map[] && w.pass == Idle
  }

  lemma CreatesFresh(w: World, id: string)
    requires ValidSandboxID(id) && RowSound(w.db, id)
    requires w.db == EMPTY_DB && w.cs == map[] && w.clock == 0 && w.calls == map[] && w.pass == Idle
    ensures var s := AdvanceCall(0, id, NoFault);
            var w' := Next(Next(Next(w, StartCreate(0, KEY, EMPTY_SPEC, 0)), s), s);
            FreshlyCreated(w', id) && forall r :: r in w.told ==> r in w'.told
  {
    EmptySpecResolves();
    var w1 := Next(w, StartCreate(0, KEY, EMPTY_SPEC, 0));
    assert w1 == w.(calls := map[0 := CreateLooking(KEY, EMPTY_SPEC, DEFAULT_TTL, 0)]);
    var w2 := Next(w1, AdvanceCall(0, id, NoFault));
    assert w2 == w.(calls := map[0 := CreateInserting(KEY, EMPTY_SPEC, DEFAULT_TTL, 0)]);
    InsertCommits(w.db, KEY, id, EMPTY_SPEC, DEFAULT_TTL, NoFault);
  }

  lemma CreateFrom(ss: seq<Step>, id: string) returns (ss': seq<Step>)
    requires ValidSandboxID(id)
    requires var w := Run(INIT, ss);
             w.db == EMPTY_DB && w.cs == map[] && w.clock == 0 && w.calls == map[] && w.pass == Idle
    ensures FreshlyCreated(Run(INIT, ss'), id)
    ensures forall r :: r in Run(INIT, ss).told ==> r in Run(INIT, ss').told
  {
    RunsAreSafe(ss);
    CreatesFresh(Run(INIT, ss), id);
    var s1, s2 := StartCreate(0, KEY, EMPTY_SPEC, 0), AdvanceCall(0, id, NoFault);
    RunExtends(ss, s1);
    RunExtends(ss + [s1], s2);
    RunExtends(ss + [s1] + [s2], s2);
    ss' := ss + [s1] + [s2] + [s2];
  }

  /** Not found is success, but the id may yet be minted. */
  lemma DestroyBeforeCreate(id: string) returns (ss: seq<Step>)
    requires ValidSandboxID(id)
    ensures var w := Run(INIT, ss);
            DestroyOk(id, None) in w.told && id in w.db.rows && w.db.rows[id].state == Pending
  {
    var s := LoadDestroy(0, id, false);
    RunExtends([], s);
    var w := Run(INIT, [] + [s]);
    assert w.told == [DestroyOk(id, None)];
    ss := CreateFrom([] + [s], id);
  }

  lemma PendingDestroySucceeds(ss: seq<Step>, id: string) returns (ss': seq<Step>)
    requires FreshlyCreated(Run(INIT, ss), id)
    ensures FreshlyCreated(Run(INIT, ss'), id) && DestroyOk(id, Some(Pending)) in Run(INIT, ss').told
  {
    var w := Run(INIT, ss);
    var s1, s2 := LoadDestroy(0, id, false), AdvanceCall(0, "", NoFault);
    RunExtends(ss, s1);
    RunExtends(ss + [s1], s2);
    var w1 := Next(w, s1);
    assert w1.calls[0] == DestroyWriting(id, w.db.rows[id]);
    var w2 := Next(w1, s2);
    assert w2.calls == map[] && w2.told == w.told + [DestroyOk(id, Some(Pending))];
    ss' := ss + [s1] + [s2];
  }

  lemma ListingsStart(w: World, items: seq<Item>)
    requires w.pass.Idle? && OuterJoin(w.db.rows, w.cs, items)
    ensures Next(Next(Next(w, ListRows(false)), ListContainers(items, false)), ReadClock)
              == w.(pass := Resume(w.clock, items))
  {
  }

  // An uninterrupted faultless pass, as steps.
  lemma WholePass(ss: seq<Step>, items: seq<Item>) returns (ss': seq<Step>)
    requires var w := Run(INIT, ss); w.pass.Idle? && OuterJoin(w.db.rows, w.cs, items)
    ensures var w := Run(INIT, ss);
            var p := RunPass(Plant(w.db, w.cs), items, w.clock, map[]).plant;
            Run(INIT, ss') == w.(db := p.db, cs := p.cs)
  {
    var s1, s2 := ListRows(false), ListContainers(items, false);
    RunExtends(ss, s1);
    RunExtends(ss + [s1], s2);
    RunExtends(ss + [s1] + [s2], ReadClock);
    var w := Run(INIT, ss);
    var w2 := Run(INIT, ss + [s1] + [s2] + [ReadClock]);
    ListingsStart(w, items);
    var calls := PassStepsCompose(w2, w.clock, items, map[]);
    RunAppends(INIT, ss + [s1] + [s2] + [ReadClock], calls);
    ss' := ss + [s1] + [s2] + [ReadClock] + calls;
  }

  lemma StartedTarget(p: Plant, p': Plant, id: string)
    requires p.db.rows == map[id := Row(1, Pending, EMPTY_SPEC, DEFAULT_TTL)] && p.cs == map[] && AtTarget(p, 0, p')
    ensures p'.db.rows == map[id := Row(2, Running, EMPTY_SPEC, DEFAULT_TTL)] && p'.cs == map[id := Up]
  {
    EmptySpecResolves();
    forall other
      ensures Lookup(p'.db.rows, other) == if other == id then Some(Row(2, Running, EMPTY_SPEC, DEFAULT_TTL)) else None
      ensures Lookup(p'.cs, other) == if other == id then Some(Up) else None
    {
      assert (Lookup(p'.db.rows, other), Lookup(p'.cs, other))
               == Target(Lookup(p.db.rows, other), Lookup(p.cs, other), 0);
    }
    assert Lookup(p'.db.rows, id).Some? && Lookup(p'.cs, id).Some?;
    assert forall other :: other in p'.db.rows ==> Lookup(p'.db.rows, other).Some?;
    assert forall other :: other in p'.cs ==> Lookup(p'.cs, other).Some?;
  }

  lemma ReachedPlantIsValid(ss: seq<Step>)
    ensures var w := Run(INIT, ss); ValidPlant(Plant(w.db, w.cs))
  {
    RunsAreSafe(ss);
    var w := Run(INIT, ss);
    forall id | id in w.db.rows || id in w.cs
      ensures ValidSandboxID(id)
    {
      assert RowOk(w, id);
    }
  }

  // A whole pass over the freshly created sandbox.
  lemma PassStarts(ss: seq<Step>, id: string) returns (ss': seq<Step>)
    requires FreshlyCreated(Run(INIT, ss), id) && ValidSandboxID(id)
    ensures var w, w' := Run(INIT, ss), Run(INIT, ss');
            && w'.told == w.told && w'.pass == Idle && w'.calls == map[] && w'.cs == map[id := Up] && w'.clock == 0
            && w'.db.rows == map[id := Row(2, Running, EMPTY_SPEC, DEFAULT_TTL)]
  {
    var w := Run(INIT, ss);
    var items := [Item(id, Some(Row(1, Pending, EMPTY_SPEC, DEFAULT_TTL)), None)];
    assert OuterJoin(w.db.rows, w.cs, items) by {
      assert items[0].id == id;
    }
    ss' := WholePass(ss, items);
    ReachedPlantIsValid(ss);
    var p := RunPass(Plant(w.db, w.cs), items, 0, map[]).plant;
    PassReachesTarget(Plant(w.db, w.cs), items, 0);
    StartedTarget(Plant(w.db, w.cs), p, id);
  }

  /** A destroy that finds the sandbox pending reports success and stops nothing: this
      run ends with that destroy done and the sandbox running in its container. */
  lemma DestroyWhilePending(id: string) returns (ss: seq<Step>)
    requires ValidSandboxID(id)
    ensures var w := Run(INIT, ss);
            && DestroyOk(id, Some(Pending)) in w.told
            && id in w.db.rows && w.db.rows[id].state == Running && id in w.cs && w.cs[id] == Up
  {
    var ss1 := CreateFrom([], id);
    var ss2 := PendingDestroySucceeds(ss1, id);
    ss := PassStarts(ss2, id);
  }

  /** It holds exactly for a destroy that read a row past pending. */
  lemma DestroySticksIff(seen: Option<TaskState>)
    ensures DestroySticks(seen) <==> seen.Some? && seen.value != Pending
  {
    if seen.Some? && seen.value != Pending {
      forall ss, id | DestroyOk(id, seen) in Run(INIT, ss).told
        ensures id in Run(INIT, ss).db.rows && Settled(Run(INIT, ss).db.rows[id].state)
      {
        RunsAreSafe(ss);
        var w := Run(INIT, ss);
        var k :| 0 <= k < |w.told| && w.told[k] == DestroyOk(id, seen);
        assert ReturnOk(w.db, w.told[k]);
      }
    } else {
      SampleIdIsValid();
      if seen.None? {
        var ss := DestroyBeforeCreate(SAMPLE_ID);
      } else {
        var ss := DestroyWhilePending(SAMPLE_ID);
      }
    }
  }

  // ---- Keepalive ----

  predicate KeptAliveButFailed(w: World, id: string) {
    && id in w.db.rows && w.db.rows[id].state == Failed && id !in w.cs && w.pass.Idle?
    && w.db.rows[id].expiresAt == w.clock + DEFAULT_TTL && id in w.leases && w.leases[id] == w.clock
  }

  const LATE: int := DEFAULT_TTL + 1

  // A pass has listed the expired row; the keepalive then renews it.
  predicate RenewedBehindPass(w: World, id: string) {
    && w.pass == Listed(map[id := Row(2, Running, EMPTY_SPEC, DEFAULT_TTL)])
    && w.db.rows == map[id := Row(2, Running, EMPTY_SPEC, LATE + DEFAULT_TTL)]
    && w.cs == map[id := Up] && w.clock == LATE && id in w.leases && w.leases[id] == LATE
  }

  lemma RenewsBehindListing(w: World, id: string)
    requires w.db.rows == map[id := Row(2, Running, EMPTY_SPEC, DEFAULT_TTL)]
    requires w.cs == map[id := Up] && w.calls == map[] && w.pass == Idle
    ensures RenewedBehindPass(Next(Next(Next(Next(w, Tick(LATE)), ListRows(false)), StartKeepalive(0, id, 0)),
              AdvanceCall(0, "", NoFault)), id)
  {
  }

  lemma KeepaliveAfterListing(ss: seq<Step>, id: string) returns (ss': seq<Step>)
    requires var w := Run(INIT, ss);
             && w.db.rows == map[id := Row(2, Running, EMPTY_SPEC, DEFAULT_TTL)]
             && w.cs == map[id := Up] && w.calls == map[] && w.pass == Idle
    ensures RenewedBehindPass(Run(INIT, ss'), id)
  {
    var w := Run(INIT, ss);
    var t, s, k1, k2 := Tick(LATE), ListRows(false), StartKeepalive(0, id, 0), AdvanceCall(0, "", NoFault);
    RunExtends(ss, t);
    RunExtends(ss + [t], s);
    RunExtends(ss + [t] + [s], k1);
    RunExtends(ss + [t] + [s] + [k1], k2);
    RenewsBehindListing(w, id);
    ss' := ss + [t] + [s] + [k1] + [k2];
  }

  lemma StaleTurn(p: Plant, item: Item)
    requires Sound(p.db) && ValidSandboxID(item.id) && item.id in p.db.rows
    requires item.desired == Some(Row(2, Running, EMPTY_SPEC, DEFAULT_TTL)) && item.observed == Some(Up)
    requires p.db.rows[item.id].state == Running && p.db.rows[item.id].version == 2
    ensures var p' := RunPass(p, [item], LATE, map[]).plant;
            && item.id !in p'.cs && item.id in p'.db.rows
            && p'.db.rows[item.id] == p.db.rows[item.id].(state := Failed, version := 3)
  {
    var reason := "reconciler reaped expired sandbox";
    assert |item.id| == 40;
    assert Begin(ActionReap, item) == Ok(CallDestroy(Mark(Running, Failed, reason, 2)));
    var p' := RunPass(p, [item], LATE, map[]).plant;
    PassOverOneMore(p, [], item, LATE, map[]);
    assert [] + [item] == [item];
    assert p' == Handle(p, ActionReap, item, NO_FAULTS).plant;
    DestroyThenMark(p, item.id, Mark(Running, Failed, reason, 2));
    CurrentMarkCommits(p.(cs := p.cs - {item.id}), item.id, Failed, reason);
  }

  lemma LateListing(w: World, id: string)
    requires RenewedBehindPass(w, id)
    ensures var item := Item(id, Some(Row(2, Running, EMPTY_SPEC, DEFAULT_TTL)), Some(Up));
            Next(Next(w, ListContainers([item], false)), ReadClock) == w.(pass := Resume(LATE, [item]))
  {
    var item := Item(id, Some(Row(2, Running, EMPTY_SPEC, DEFAULT_TTL)), Some(Up));
    assert [item][0].id == id;
    assert OuterJoin(w.pass.rows, w.cs, [item]);
  }

  lemma StaleReap(ss: seq<Step>, id: string) returns (ss': seq<Step>)
    requires RenewedBehindPass(Run(INIT, ss), id) && ValidSandboxID(id)
    ensures KeptAliveButFailed(Run(INIT, ss'), id)
  {
    var w := Run(INIT, ss);
    var item := Item(id, Some(Row(2, Running, EMPTY_SPEC, DEFAULT_TTL)), Some(Up));
    var s := ListContainers([item], false);
    LateListing(w, id);
    RunExtends(ss, s);
    RunExtends(ss + [s], ReadClock);
    var w1 := Run(INIT, ss + [s] + [ReadClock]);
    var calls := PassStepsCompose(w1, LATE, [item], map[]);
    RunAppends(INIT, ss + [s] + [ReadClock], calls);
    RunsAreSafe(ss);
    StaleTurn(Plant(w.db, w.cs), item);
    ss' := ss + [s] + [ReadClock] + calls;
  }

  /** A keepalive that succeeds can still lose to a pass that listed the row before it:
      at the end of this run the lease reaches past the clock and the sandbox is failed. */
  lemma KeepaliveCanLose(id: string) returns (ss: seq<Step>)
    requires ValidSandboxID(id)
    ensures KeptAliveButFailed(Run(INIT, ss), id)
  {
    var ss1 := CreateFrom([], id);
    var ss2 := PassStarts(ss1, id);
    var ss3 := KeepaliveAfterListing(ss2, id);
    ss := StaleReap(ss3, id);
  }

  // ---- Specs ----

  lemma ResolvedIsCreated(item: Item, now: int)
    requires item.desired.Some? ==> Resolves(item.desired.value.spec)
    ensures Decide(item.desired, item.observed, now) == ActionCreate && item.id != "" ==> FirstOp(item, now).CallCreate?
  {
  }

  /** No row ever created through the API reaches the reconciler's branch for specs that
      do not resolve: whenever a pass decides to create, it goes on to call create. */
  lemma CreatedSpecsResolve(ss: seq<Step>)
    ensures var w := Run(INIT, ss);
            && (forall id :: id in w.db.rows ==> Resolves(w.db.rows[id].spec))
            && (w.pass.Working? ==>
                  && w.pass.todo != []
                  && forall i :: 0 <= i < |w.pass.todo| ==>
                       var item := w.pass.todo[i];
                       Decide(item.desired, item.observed, w.pass.now) == ActionCreate && item.id != "" ==>
                         FirstOp(item, w.pass.now).CallCreate?)
  {
    RunsAreSafe(ss);
    var w := Run(INIT, ss);
    forall id | id in w.db.rows
      ensures Resolves(w.db.rows[id].spec)
    {
      assert RowOk(w, id);
    }
    if w.pass.Working? {
      forall i | 0 <= i < |w.pass.todo|
        ensures var item := w.pass.todo[i];
                Decide(item.desired, item.observed, w.pass.now) == ActionCreate && item.id != "" ==>
                  FirstOp(item, w.pass.now).CallCreate?
      {
        assert ItemSeen(w.db, w.pass.todo[i]);
        ResolvedIsCreated(w.pass.todo[i], w.pass.now);
      }
    }
  }

  /** With any faults, crashes and exits: no pass ever calls create for a sandbox that
      has a container, so one container per sandbox is never exceeded, and no container
      exists without a row. */
  lemma NeverASecondContainer(ss: seq<Step>)
    ensures var w := Run(INIT, ss);
            && (w.pass.Working? && w.pass.op.CallCreate? ==> w.pass.todo != [] && w.pass.todo[0].id !in w.cs)
            && (forall id :: id in w.cs ==> id in w.db.rows && ValidSandboxID(id))
  {
    RunsAreSafe(ss);
    var w := Run(INIT, ss);
    if w.pass.Working? && w.pass.op.CallCreate? {
      CreateOnlyWhenAbsent(w);
    }
    forall id | id in w.cs
      ensures ValidSandboxID(id)
    {
      assert RowOk(w, id);
    }
  }

  // ---- Compensation ----

  // All or reported: once the calls of a create end, its row runs over its container, or
  // the container is gone, or the error names the failure that may have left one.
  predicate Accounted(p: Plant, id: string, error: Option<Error>) {
    match error
    case None => id in p.cs && id in p.db.rows && p.db.rows[id].state == Running
    case Some(ErrLeaked(_)) => true
    case Some(ErrNotUndone(_, _)) => true
    case Some(_) => id !in p.cs
  }

  // A reported leak is one, unless the daemon lost the reply of the removal.
  predicate LeakIsReal(p: Plant, id: string, error: Option<Error>, f: Faults) {
    match error
    case Some(ErrLeaked(_)) => id in p.cs <==> f.create.remove.Refused?
    case Some(ErrNotUndone(_, _)) => id in p.cs <==> f.destroy.listFails || f.destroy.remove.Refused?
    case _ => true
  }

  lemma FirstCreateIsValid(item: Item, now: int)
    ensures FirstOp(item, now).CallCreate? ==> Validate(FirstOp(item, now).spec).Ok?
  {
  }

  lemma CallIsValid(w: World)
    requires Inv(w) && w.pass.Working? && w.pass.op.CallCreate?
    ensures ValidSandboxID(w.pass.todo[0].id) && Validate(w.pass.op.spec).Ok?
  {
    CreateOnlyWhenAbsent(w);
    FirstCreateIsValid(w.pass.todo[0], w.pass.now);
    assert RowOk(w, w.pass.todo[0].id);
  }

  lemma BegunIDIsValid(w: World)
    requires Inv(w) && w.pass.Working? && w.pass.op.Undo?
    ensures ValidSandboxID(w.pass.todo[0].id)
  {
    var item := w.pass.todo[0];
    assert FirstOp(item, w.pass.now).CallCreate? && ItemSeen(w.db, item);
    assert RowOk(w, item.id);
  }

  lemma CallAccounted(p: Plant, id: string, spec: Spec, version: int, f: Faults)
    requires id !in p.cs && ValidSandboxID(id) && Validate(spec).Ok?
    ensures var r := StepOp(p, id, CallCreate(spec, version), f);
            if r.next == Done then
              && (Accounted(r.plant, id, r.error) <==> !CreateReplyLost(f.create))
              && LeakIsReal(r.plant, id, r.error, f)
            else r.next.WriteBack? && !CreateReplyLost(f.create)
  {
  }

  lemma WriteBackAccounted(p: Plant, id: string, version: int, f: Faults)
    requires Sound(p.db)
    ensures var r := StepOp(p, id, WriteBack(version), f);
            if r.next == Done then r.error == None && (Accounted(r.plant, id, None) <==> id in p.cs) else r.next.Undo?
  {
  }

  lemma UndoAccounted(p: Plant, id: string, cause: Error, f: Faults)
    requires ValidSandboxID(id)
    ensures var r := StepOp(p, id, Undo(cause), f);
            && r.next == Done && r.error.Some? && Accounted(r.plant, id, r.error)
            && (id in p.cs ==> LeakIsReal(r.plant, id, r.error, f))
  {
  }

  /** However API calls, outside changes to containers and faults interleave with the calls
      of a create, its last call leaves everything accounted for if and only if it is not
      the daemon's create with its reply lost, nor a write-back that commits over a container
      somebody has removed.  A leak it reports is real, lost or outside removals aside. */
  lemma EveryCreateIsAccounted(ss: seq<Step>, f: Faults)
    requires var pass := Run(INIT, ss).pass;
             pass.Working? && (pass.op.CallCreate? || pass.op.WriteBack? || pass.op.Undo?)
    ensures var w := Run(INIT, ss);
            && w.pass.todo != []
            && var id, op := w.pass.todo[0].id, w.pass.op;
            && var r := StepOp(Plant(w.db, w.cs), id, op, f);
            if r.next == Done then
              && (Accounted(r.plant, id, r.error) <==>
                  !(op.CallCreate? && CreateReplyLost(f.create)) && (op.WriteBack? ==> id in w.cs))
              && ((op.Undo? ==> id in w.cs) ==> LeakIsReal(r.plant, id, r.error, f))
            else r.next.WriteBack? || r.next.Undo?
  {
    RunsAreSafe(ss);
    var w := Run(INIT, ss);
    var p, id, op := Plant(w.db, w.cs), w.pass.todo[0].id, w.pass.op;
    match op
    case CallCreate(spec, version) =>
      CreateOnlyWhenAbsent(w);
      CallIsValid(w);
      CallAccounted(p, id, spec, version, f);
    case WriteBack(version) =>
      WriteBackAccounted(p, id, version, f);
    case Undo(cause) =>
      BegunIDIsValid(w);
      UndoAccounted(p, id, cause, f);
  }

  const DEFAULT_SPEC := Spec("alpine:3.20", map[], 1.0, 512 * 1024 * 1024, 256, false)

  // A world whose one sandbox is pending with nothing to its name, about to be created.
  predicate AboutToCreate(w: World, id: string) {
    && w.db.rows == map[id := Row(1, Pending, EMPTY_SPEC, DEFAULT_TTL)] && w.cs == map[]
    && w.pass.Working? && w.pass.todo == [Item(id, Some(Row(1, Pending, EMPTY_SPEC, DEFAULT_TTL)), None)]
    && w.pass.op == CallCreate(DEFAULT_SPEC, 1)
  }

  lemma ListedForCreation(w: World, id: string)
    requires FreshlyCreated(w, id) && ValidSandboxID(id)
    ensures var items := [Item(id, Some(Row(1, Pending, EMPTY_SPEC, DEFAULT_TTL)), None)];
            OuterJoin(w.db.rows, w.cs, items) && AboutToCreate(w.(pass := Resume(w.clock, items)), id)
  {
    var items := [Item(id, Some(Row(1, Pending, EMPTY_SPEC, DEFAULT_TTL)), None)];
    EmptySpecResolves();
    assert items[0].id == id && |id| == 40;
  }

  lemma ComesToCreate(id: string) returns (ss: seq<Step>)
    requires ValidSandboxID(id)
    ensures AboutToCreate(Run(INIT, ss), id)
  {
    var ss1 := CreateFrom([], id);
    var w := Run(INIT, ss1);
    var items := [Item(id, Some(Row(1, Pending, EMPTY_SPEC, DEFAULT_TTL)), None)];
    var s1, s2 := ListRows(false), ListContainers(items, false);
    ListedForCreation(w, id);
    ListingsStart(w, items);
    RunExtends(ss1, s1);
    RunExtends(ss1 + [s1], s2);
    RunExtends(ss1 + [s1] + [s2], ReadClock);
    ss := ss1 + [s1] + [s2] + [ReadClock];
  }

  const REPLY_LOST := NO_FAULTS.(create := FINE.(create := Lost))

  lemma LostCreate(p: Plant, id: string)
    requires id !in p.cs && ValidSandboxID(id)
    ensures var r := StepOp(p, id, CallCreate(DEFAULT_SPEC, 1), REPLY_LOST);
            r == Progress(p.(cs := p.cs[id := Exited]), Done, Some(ErrDaemon))
  {
  }

  /** The reply of the daemon's create lost: in this run the create ends with a plain daemon
      error, the row still pending and the container there. */
  lemma LostReplyIsUnaccounted(id: string) returns (ss: seq<Step>)
    requires ValidSandboxID(id)
    ensures var w := Run(INIT, ss);
            && w.pass.Working? && w.pass.todo != [] && w.pass.todo[0].id == id && w.pass.op.CallCreate?
            && var r := StepOp(Plant(w.db, w.cs), id, w.pass.op, REPLY_LOST);
            && r.next == Done && r.error == Some(ErrDaemon)
            && id in r.plant.cs && id in r.plant.db.rows && r.plant.db.rows[id].state == Pending
            && !Accounted(r.plant, id, r.error)
  {
    ss := ComesToCreate(id);
    var w := Run(INIT, ss);
    LostCreate(Plant(w.db, w.cs), id);
  }

  lemma VanishesAfterCreate(w: World, id: string)
    requires AboutToCreate(w, id) && ValidSandboxID(id)
    ensures var w' := Next(Next(w, PassCall(NO_FAULTS)), ContainerVanish(id));
            && w'.db == w.db && w'.cs == map[]
            && w'.pass.Working? && w'.pass.todo == w.pass.todo && w'.pass.op == WriteBack(1)
  {
    var w1 := Next(w, PassCall(NO_FAULTS));
    assert w1.cs == map[id := Up] && w1.pass.op == WriteBack(1);
    assert map[id := Up] - {id} == map[];
  }

  lemma VanishedWriteBack(db: DB, id: string)
    requires db.rows == map[id := Row(1, Pending, EMPTY_SPEC, DEFAULT_TTL)] && Sound(db)
    ensures var r := StepOp(Plant(db, map[]), id, WriteBack(1), NO_FAULTS);
            && r.next == Done && r.error == None && r.plant.cs == map[]
            && id in r.plant.db.rows && r.plant.db.rows[id].state == Running
  {
    assert RowSound(db, id);
    TransitionCommits(db, id, Pending, Running, "reconciler created container", 1, NoFault);
  }

  /** The container removed by somebody else: in this run the write-back then commits all
      the same, so the row says running and nothing runs. */
  lemma VanishedIsUnaccounted(id: string) returns (ss: seq<Step>)
    requires ValidSandboxID(id)
    ensures var w := Run(INIT, ss);
            && w.pass.Working? && w.pass.todo != [] && w.pass.todo[0].id == id && w.pass.op.WriteBack?
            && var r := StepOp(Plant(w.db, w.cs), id, w.pass.op, NO_FAULTS);
            && r.next == Done && r.error == None
            && id !in r.plant.cs && id in r.plant.db.rows && r.plant.db.rows[id].state == Running
            && !Accounted(r.plant, id, r.error)
  {
    var ss1 := ComesToCreate(id);
    RunsAreSafe(ss1);
    VanishesAfterCreate(Run(INIT, ss1), id);
    VanishedWriteBack(Run(INIT, ss1).db, id);
    RunExtends(ss1, PassCall(NO_FAULTS));
    RunExtends(ss1 + [PassCall(NO_FAULTS)], ContainerVanish(id));
    ss := ss1 + [PassCall(NO_FAULTS)] + [ContainerVanish(id)];
  }

  // ---- Taking down ----

  /** In every run, at the destroy of a destroy or reap: only its success leads on to the
      mark, and then the container is gone; its failure ends the action with that very error,
      the tables untouched. */
  lemma MarkFollowsDestroy(ss: seq<Step>, f: Faults)
    requires var pass := Run(INIT, ss).pass; pass.Working? && pass.op.CallDestroy?
    ensures var w := Run(INIT, ss);
            && w.pass.todo != []
            && var id, op := w.pass.todo[0].id, w.pass.op;
            && var r := StepOp(Plant(w.db, w.cs), id, op, f);
            && r.plant.db == w.db
            && match RtDestroy(w.cs, id, f.destroy).result
               case Ok(_) => r.next == op.andThen && r.error.None? && id !in r.plant.cs
               case Err(e) => r.next == Done && r.error == Some(e)
  {
    RunsAreSafe(ss);
  }

  // The pass stops the row, or fails it for its expiry.
  predicate TakesRowDown(pass: Pass)
    requires pass.Working? && pass.op.Mark?
  {
    pass.begun || pass.op.to == Stopped || pass.op.reason == "reconciler reaped expired sandbox"
  }

  lemma MarkOverNothing(item: Item, now: int)
    ensures var op := FirstOp(item, now);
            op.Mark? && (op.to == Stopped || op.reason == "reconciler reaped expired sandbox") ==> item.observed.None?
  {
  }

  /** In every run, with any faults: when a pass stops a row, or fails it for its expiry, the
      container is gone by then, and it stays so through the write. */
  lemma TakenDownIsGone(ss: seq<Step>, f: Faults)
    requires var pass := Run(INIT, ss).pass; pass.Working? && pass.op.Mark? && TakesRowDown(pass)
    ensures var w := Run(INIT, ss);
            && w.pass.todo != []
            && var id := w.pass.todo[0].id;
            && id !in w.cs && id !in StepOp(Plant(w.db, w.cs), id, w.pass.op, f).plant.cs
  {
    RunsAreSafe(ss);
    var pass := Run(INIT, ss).pass;
    if !pass.begun {
      MarkOverNothing(pass.todo[0], pass.now);
    }
  }

  // ---- Recovery ----

  /** From whatever any run leaves, crashes and failed calls included, two uninterrupted
      faultless passes converge. */
  lemma EveryRunRecovers(ss: seq<Step>, items1: seq<Item>, t1: int, p1: Plant, items2: seq<Item>, t2: int, p2: Plant,
      items3: seq<Item>)
    requires var w := Run(INIT, ss);
             OuterJoin(w.db.rows, w.cs, items1) && p1 == RunPass(Plant(w.db, w.cs), items1, t1, map[]).plant
    requires OuterJoin(p1.db.rows, p1.cs, items2) && p2 == RunPass(p1, items2, t2, map[]).plant
    requires OuterJoin(p2.db.rows, p2.cs, items3)
    ensures RunPass(p2, items3, t2, map[]) == PassResult(p2, [])
  {
    ReachedPlantIsValid(ss);
    var w := Run(INIT, ss);
    TwoPassesConverge(Plant(w.db, w.cs), items1, t1, p1, items2, t2, p2, items3);
  }

  // An exited container under a running row outlives the pass.
  lemma ExitLeavesWork(p: Plant, id: string, now: int) returns (items: seq<Item>)
    requires ValidPlant(p) && now <= DEFAULT_TTL
    requires p.db.rows == map[id := Row(2, Running, EMPTY_SPEC, DEFAULT_TTL)] && p.cs == map[id := Exited]
    ensures OuterJoin(p.db.rows, p.cs, items) && !Converged(RunPass(p, items, now, map[]).plant, now)
  {
    items := [Item(id, Some(Row(2, Running, EMPTY_SPEC, DEFAULT_TTL)), Some(Exited))];
    assert items[0].id == id;
    assert OuterJoin(p.db.rows, p.cs, items);
    assert ExitedUnderLiveRow(Lookup(p.db.rows, id), Lookup(p.cs, id), now);
    OnePassConvergesIff(p, items, now, RunPass(p, items, now, map[]).plant);
  }

  lemma StartedExits(w: World, id: string)
    requires w.cs == map[id := Up]
    ensures Next(w, ContainerExit(id)) == w.(cs := map[id := Exited])
  {
  }

  /** One pass is not enough: in this run a started container exits, and the next pass,
      faultless and uninterrupted, leaves work behind. */
  lemma OnePassIsNotEnough(id: string) returns (ss: seq<Step>, items: seq<Item>)
    requires ValidSandboxID(id)
    ensures var w := Run(INIT, ss);
            && OuterJoin(w.db.rows, w.cs, items)
            && !Converged(RunPass(Plant(w.db, w.cs), items, w.clock, map[]).plant, w.clock)
  {
    var ss1 := CreateFrom([], id);
    var ss2 := PassStarts(ss1, id);
    ss := ss2 + [ContainerExit(id)];
    RunExtends(ss2, ContainerExit(id));
    StartedExits(Run(INIT, ss2), id);
    ReachedPlantIsValid(ss);
    var w := Run(INIT, ss);
    items := ExitLeavesWork(Plant(w.db, w.cs), id, w.clock);
  }

  /** A sandbox outlives the clock reading of its last create or keepalive by at most the
      platform cap: the first uninterrupted faultless pass later than that leaves its
      row terminal and its container gone. */
  lemma LeaseBoundsLife(ss: seq<Step>, id: string, now: int, items: seq<Item>)
    requires var w := Run(INIT, ss);
             && id in w.db.rows && id in w.leases && now > w.leases[id] + MAX_TTL
             && OuterJoin(w.db.rows, w.cs, items)
    ensures var w := Run(INIT, ss);
            var p := RunPass(Plant(w.db, w.cs), items, now, map[]).plant;
            id in p.db.rows && Terminal(p.db.rows[id].state) && id !in p.cs
  {
    RunsAreSafe(ss);
    ReachedPlantIsValid(ss);
    var w := Run(INIT, ss);
    assert RowOk(w, id);
    ExpiredIsReaped(Plant(w.db, w.cs), items, now, RunPass(Plant(w.db, w.cs), items, now, map[]).plant, id);
  }

  /** Every row is leased: its expiry lies within the cap after a clock reading some
      create or keepalive took for it. */
  lemma EveryRowIsLeased(ss: seq<Step>, id: string)
    requires id in Run(INIT, ss).db.rows
    ensures var w := Run(INIT, ss); id in w.leases && w.leases[id] < w.db.rows[id].expiresAt <= w.leases[id] + MAX_TTL
  {
    RunsAreSafe(ss);
    assert RowOk(Run(INIT, ss), id);
  }
}
