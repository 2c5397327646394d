/** When a successful keepalive keeps its sandbox: exactly when no pass in flight still has
    the row on its list with an older lease (internal/store/sqlite/sqlite.go,
    internal/reconciler/reconciler.go). */
module Renewal {
  import opened Wrappers
  import opened Lifecycle
  import opened Tables
  import opened RuntimeMap
  import opened Decision
  import opened Passes
  import opened Protocol
  import opened Safety
  import opened Agreement

  const REAPED := "reconciler reaped expired sandbox"

  /** The lease a keepalive set has neither lapsed nor been replaced. */
  predicate LeaseStands(w: World, id: string, expiresAt: int) {
    id in w.db.rows && w.db.rows[id].expiresAt == expiresAt && w.clock <= expiresAt
  }

  // It stands from w through every step of ss.
  ghost predicate LeaseLives(w: World, ss: seq<Step>, id: string, expiresAt: int) {
    forall k :: 0 <= k <= |ss| ==> LeaseStands(Run(w, ss[..k]), id, expiresAt)
  }

  // The call the pass is about to make reaps the sandbox: it destroys the container of a
  // row that is live, or its mark is about to commit.
  predicate ReapsNow(w: World, id: string, f: Faults) {
    && w.pass.Working? && w.pass.todo != [] && w.pass.todo[0].id == id
    && match w.pass.op
       case CallDestroy(Mark(_, _, reason, _)) => reason == REAPED && id in w.db.rows && !Settled(w.db.rows[id].state)
       case Mark(from, to, reason, version) =>
         reason == REAPED && UpdateState(w.db, id, from, to, REAPED, version, f.write).result.Ok?
       case _ => false
  }

  /** What a caller may expect of a lease: while it stands, no run reaps the sandbox. */
  ghost predicate LeaseKeeps(w: World, id: string) {
    id in w.db.rows &&
    forall ss, f :: LeaseLives(w, ss, id, w.db.rows[id].expiresAt) ==> !ReapsNow(Run(w, ss), id, f)
  }

  predicate Lapsed(item: Item, id: string, version: int, now: int) {
    item.id == id && item.desired.Some? && item.desired.value.version == version && now > item.desired.value.expiresAt
  }

  /** A pass in flight listed this version of the row under a lease that ends before
      expiresAt, or goes by a clock reading past the lease it listed. */
  ghost predicate StaleLease(w: World, id: string, expiresAt: int) {
    id in w.db.rows &&
    match w.pass
    case Idle => false
    case Listed(rows) => id in rows && rows[id].version == w.db.rows[id].version && rows[id].expiresAt < expiresAt
    case Joined(items) => exists i :: 0 <= i < |items| && Lapsed(items[i], id, w.db.rows[id].version, expiresAt)
    case Working(now, todo, _, _) =>
      exists i :: 0 <= i < |todo| && Lapsed(todo[i], id, w.db.rows[id].version, now)
  }

  // ---- Without a stale listing, the lease keeps ----

  predicate NoneLapsed(items: seq<Item>, id: string, version: int, now: int) {
    forall i :: 0 <= i < |items| ==> !Lapsed(items[i], id, version, now)
  }

  // Versions only grow, so items that are not lapsed do not become so.
  lemma LapsedLooksBack(db: DB, db': DB, items: seq<Item>, items': seq<Item>, id: string, now: int)
    requires id in db.rows && Grown(db, db') && NoneLapsed(items, id, db.rows[id].version, now)
    requires forall i :: 0 <= i < |items| ==> ItemSeen(db, items[i])
    requires forall it :: it in items' ==> it in items
    ensures NoneLapsed(items', id, db'.rows[id].version, now)
  {
    assert Later(db.rows[id], db'.rows[id]);
    forall i | 0 <= i < |items'|
      ensures !Lapsed(items'[i], id, db'.rows[id].version, now)
    {
      assert items'[i] in items;
      var j :| 0 <= j < |items| && items[j] == items'[i];
      assert ItemSeen(db, items[j]) && !Lapsed(items[j], id, db.rows[id].version, now);
    }
  }

  lemma StaleLooksBack(w: World, w': World, id: string, expiresAt: int)
    requires Inv(w) && id in w.db.rows && Grown(w.db, w'.db) && !StaleLease(w, id, expiresAt)
    requires w'.pass.Idle? || w'.pass == w.pass
          || (&& w.pass.Working? && w'.pass.Working? && w'.pass.now == w.pass.now
              && forall it :: it in w'.pass.todo ==> it in w.pass.todo)
    ensures !StaleLease(w', id, expiresAt)
  {
    assert Later(w.db.rows[id], w'.db.rows[id]);
    match w'.pass
    case Idle =>
    case Listed(rows) => assert id in rows ==> Seen(w.db, id, rows[id]);
    case Joined(items) => LapsedLooksBack(w.db, w'.db, items, items, id, expiresAt);
    case Working(now, todo, _, _) => LapsedLooksBack(w.db, w'.db, w.pass.todo, todo, id, now);
  }

  lemma ListingIsNotStale(w: World, id: string, items: seq<Item>)
    requires w.pass.Listed? && OuterJoin(w.pass.rows, w.cs, items)
    requires id in w.db.rows && !StaleLease(w, id, w.db.rows[id].expiresAt)
    ensures !StaleLease(w.(pass := Joined(items)), id, w.db.rows[id].expiresAt)
  {
    forall i | 0 <= i < |items|
      ensures !Lapsed(items[i], id, w.db.rows[id].version, w.db.rows[id].expiresAt)
    {
      assert items[i].desired == Lookup(w.pass.rows, items[i].id);
    }
  }

  lemma ClockIsNotStale(w: World, id: string)
    requires w.pass.Joined? && id in w.db.rows && w.clock <= w.db.rows[id].expiresAt
    requires !StaleLease(w, id, w.db.rows[id].expiresAt)
    ensures !StaleLease(w.(pass := Resume(w.clock, w.pass.items)), id, w.db.rows[id].expiresAt)
  {
    var items := w.pass.items;
    forall i | 0 <= i < |items|
      ensures !Lapsed(items[i], id, w.db.rows[id].version, w.clock)
    {
      assert !Lapsed(items[i], id, w.db.rows[id].version, w.db.rows[id].expiresAt);
    }
  }

  lemma AdvanceGrows(w: World, c: nat, mint: string, fault: Fault)
    requires Sound(w.db) && c in w.calls
    ensures Grown(w.db, Advances(w, c, mint, fault).db)
    ensures Advances(w, c, mint, fault).pass == w.pass
  {
    var ops := AdvanceWrites(w, c, mint, fault);
    RunKeepsSound(w.db, ops);
  }

  lemma PassCallShrinks(w: World, f: Faults)
    requires Inv(w) && w.pass.Working?
    ensures var w' := PassCalls(w, f);
            && Grown(w.db, w'.db)
            && (w'.pass.Idle?
                || (&& w'.pass.Working? && w'.pass.now == w.pass.now
                    && forall it :: it in w'.pass.todo ==> it in w.pass.todo))
  {
    Passes.StepOpKeepsSound(Plant(w.db, w.cs), w.pass.todo[0].id, w.pass.op, f);
  }

  lemma OtherStepsKeepPass(w: World, s: Step)
    requires FromOutside(s) || s.StartCreate? || s.StartKeepalive? || s.LoadDestroy?
    ensures Next(w, s).db == w.db && (Next(w, s).pass == w.pass || Next(w, s).pass.Idle?)
  {
  }

  lemma AdvanceKeepsFresh(w: World, c: nat, mint: string, fault: Fault, id: string, expiresAt: int)
    requires Inv(w) && c in w.calls && LeaseStands(w, id, expiresAt) && !StaleLease(w, id, expiresAt)
    ensures !StaleLease(Advances(w, c, mint, fault), id, expiresAt)
  {
    AdvanceGrows(w, c, mint, fault);
    StaleLooksBack(w, Advances(w, c, mint, fault), id, expiresAt);
  }

  lemma PassCallKeepsFresh(w: World, f: Faults, id: string, expiresAt: int)
    requires Inv(w) && w.pass.Working? && LeaseStands(w, id, expiresAt) && !StaleLease(w, id, expiresAt)
    ensures !StaleLease(PassCalls(w, f), id, expiresAt)
  {
    PassCallShrinks(w, f);
    StaleLooksBack(w, PassCalls(w, f), id, expiresAt);
  }

  lemma StepKeepsFresh(w: World, s: Step, id: string, expiresAt: int)
    requires Inv(w) && LeaseStands(w, id, expiresAt) && !StaleLease(w, id, expiresAt)
    ensures !StaleLease(Next(w, s), id, expiresAt)
  {
    match s
    case AdvanceCall(c, mint, fault) =>
      if c in w.calls {
        AdvanceKeepsFresh(w, c, mint, fault, id, expiresAt);
      }
    case PassCall(f) =>
      if w.pass.Working? {
        PassCallKeepsFresh(w, f, id, expiresAt);
      }
    case ListRows(_) =>
    case ListContainers(items, fails) =>
      if !fails && w.pass.Listed? && OuterJoin(w.pass.rows, w.cs, items) {
        ListingIsNotStale(w, id, items);
      }
    case ReadClock =>
      if w.pass.Joined? {
        ClockIsNotStale(w, id);
      }
    case _ => OtherStepsKeepPass(w, s);
  }

  lemma {:induction false} RunKeepsFresh(w: World, ss: seq<Step>, id: string, expiresAt: int)
    requires Inv(w) && LeaseLives(w, ss, id, expiresAt) && !StaleLease(w, id, expiresAt)
    ensures Inv(Run(w, ss)) && !StaleLease(Run(w, ss), id, expiresAt)
    decreases |ss|
  {
    if ss != [] {
      var front := ss[..|ss| - 1];
      assert forall k :: 0 <= k <= |front| ==> front[..k] == ss[..k];
      RunKeepsFresh(w, front, id, expiresAt);
      NextKeepsInv(Run(w, front), ss[|ss| - 1]);
      assert ss[..|ss|] == ss;
      assert LeaseStands(Run(w, ss[..|front|]), id, expiresAt);
      StepKeepsFresh(Run(w, front), ss[|ss| - 1], id, expiresAt);
    }
  }

  lemma DestroyIsLapsed(item: Item, now: int)
    requires var op := FirstOp(item, now); op.CallDestroy? && op.andThen.Mark? && op.andThen.reason == REAPED
    ensures item.desired.Some? && now > item.desired.value.expiresAt
  {
  }

  // Only an item past its lease begins with a reap.
  lemma ReapIsLapsed(item: Item, now: int, op: Op)
    requires op == FirstOp(item, now) || Follows(FirstOp(item, now), op)
    requires op.Mark? && op.reason == REAPED
    ensures item.desired.Some? && op.version == item.desired.value.version && now > item.desired.value.expiresAt
  {
  }

  // ---- A listed pending row stays pending until a call is made for it ----

  predicate StillPending(db: DB, id: string, listed: Option<Row>) {
    listed.Some? && listed.value.state == Pending ==> id in db.rows && db.rows[id].state == Pending
  }

  ghost predicate PendingStays(w: World, id: string) {
    match w.pass
    case Idle => true
    case Listed(rows) => StillPending(w.db, id, Lookup(rows, id))
    case Joined(items) => forall i :: 0 <= i < |items| && items[i].id == id ==> StillPending(w.db, id, items[i].desired)
    case Working(_, todo, _, begun) =>
      forall i :: 0 <= i < |todo| && (i > 0 || !begun) && todo[i].id == id ==> StillPending(w.db, id, todo[i].desired)
  }

  lemma PassCallKeepsPending(w: World, f: Faults, id: string)
    requires Inv(w) && w.pass.Working? && PendingStays(w, id)
    ensures PendingStays(PassCalls(w, f), id)
  {
    var head, todo := w.pass.todo[0].id, w.pass.todo;
    var p, p' := Plant(w.db, w.cs), StepOp(Plant(w.db, w.cs), head, w.pass.op, f).plant;
    if head != id {
      StepOpIsLocal(p, head, w.pass.op, f, id);
      assert Lookup(p'.db.rows, id) == ViewOf(p', id).row && Lookup(p.db.rows, id) == ViewOf(p, id).row;
      assert forall i :: 1 <= i < |todo| ==> todo[1..][i - 1] == todo[i];
    } else {
      assert forall i :: 1 <= i < |todo| ==> todo[i].id != id;
    }
  }

  lemma NextKeepsPending(w: World, s: Step, id: string)
    requires Inv(w) && PendingStays(w, id)
    ensures PendingStays(Next(w, s), id)
  {
    match s
    case AdvanceCall(c, mint, fault) =>
      if c in w.calls {
            AdvanceIsApiMove(w, c, mint, fault);
      }
    case PassCall(f) =>
      if w.pass.Working? {
        PassCallKeepsPending(w, f, id);
      }
    case ListRows(_) =>
    case ListContainers(items, fails) =>
      if !fails && w.pass.Listed? && OuterJoin(w.pass.rows, w.cs, items) {
        assert forall i :: 0 <= i < |items| && items[i].id == id ==> items[i].desired == Lookup(w.pass.rows, id);
      }
    case ReadClock =>
    case _ => OtherStepsKeepPass(w, s);
  }

  lemma {:induction false} RunKeepsPending(ss: seq<Step>, id: string)
    ensures PendingStays(Run(INIT, ss), id)
    decreases |ss|
  {
    if ss != [] {
      RunKeepsPending(ss[..|ss| - 1], id);
      RunsAreSafe(ss[..|ss| - 1]);
      NextKeepsPending(Run(INIT, ss[..|ss| - 1]), ss[|ss| - 1], id);
    }
  }

  // ---- So the lease keeps ----

  lemma MarkNeedsLapse(w: World, id: string, f: Faults)
    requires Inv(w) && ReapsNow(w, id, f) && w.pass.op.Mark?
    ensures id in w.db.rows && Lapsed(w.pass.todo[0], id, w.db.rows[id].version, w.pass.now)
  {
    ReapIsLapsed(w.pass.todo[0], w.pass.now, w.pass.op);
  }

  // A live row differs in version from what was listed only if it was pending then.
  lemma LiveRowIsCurrent(db: DB, id: string, listed: Row)
    requires RowSound(db, id) && Seen(db, id, listed) && !Settled(db.rows[id].state)
    requires StillPending(db, id, Some(listed))
    ensures listed.version == db.rows[id].version
  {
    VersionFollowsState(db, id);
  }

  lemma DestroyNeedsLapse(w: World, id: string, f: Faults)
    requires Inv(w) && PendingStays(w, id) && ReapsNow(w, id, f) && w.pass.op.CallDestroy?
    ensures id in w.db.rows && Lapsed(w.pass.todo[0], id, w.db.rows[id].version, w.pass.now)
  {
    var item := w.pass.todo[0];
    assert !w.pass.begun && w.pass.op == FirstOp(item, w.pass.now);
    DestroyIsLapsed(item, w.pass.now);
    assert ItemSeen(w.db, item) && RowSound(w.db, id);
    LiveRowIsCurrent(w.db, id, item.desired.value);
  }

  lemma FreshIsNotReaped(w: World, id: string, expiresAt: int, f: Faults)
    requires Inv(w) && PendingStays(w, id) && !StaleLease(w, id, expiresAt)
    ensures !ReapsNow(w, id, f)
  {
    if ReapsNow(w, id, f) {
      if w.pass.op.Mark? {
        MarkNeedsLapse(w, id, f);
      } else {
        DestroyNeedsLapse(w, id, f);
      }
    }
  }

  // ---- With one, some run reaps within the lease ----

  ghost predicate ReapFollows(w: World, id: string, expiresAt: int, ss: seq<Step>) {
    LeaseLives(w, ss, id, expiresAt) && ReapsNow(Run(w, ss), id, NO_FAULTS)
  }

  lemma ReapAfterStep(w: World, s: Step, id: string, expiresAt: int, ss: seq<Step>)
    requires LeaseStands(w, id, expiresAt) && ReapFollows(Next(w, s), id, expiresAt, ss)
    ensures ReapFollows(w, id, expiresAt, [s] + ss)
  {
    RunThen(w, s, ss);
    var all := [s] + ss;
    forall k | 0 <= k <= |all|
      ensures LeaseStands(Run(w, all[..k]), id, expiresAt)
    {
      if k > 0 {
        assert all[..k] == [s] + ss[..k - 1];
        RunThen(w, s, ss[..k - 1]);
      } else {
        assert all[..k] == [];
      }
    }
  }

  lemma ReapNow(w: World, id: string, expiresAt: int)
    requires LeaseStands(w, id, expiresAt) && ReapsNow(w, id, NO_FAULTS)
    ensures ReapFollows(w, id, expiresAt, [])
  {
    var none: seq<Step> := [];
    assert none[..0] == none;
    assert Run(w, none) == w;
  }

  // A call for an earlier item: the row stays, the pass comes nearer.
  lemma CallForAnother(w: World, id: string)
    requires w.pass.Working? && |w.pass.todo| > 1 && w.pass.todo[0].id != id
    ensures var w' := Next(w, PassCall(NO_FAULTS));
            && Lookup(w'.db.rows, id) == Lookup(w.db.rows, id) && w'.clock == w.clock
            && w'.pass.Working? && w'.pass.now == w.pass.now
            && (w'.pass.todo == w.pass.todo[1..] || (w'.pass.todo == w.pass.todo && Rank(w'.pass.op) < Rank(w.pass.op)))
  {
    var p := Plant(w.db, w.cs);
    var p' := StepOp(p, w.pass.todo[0].id, w.pass.op, NO_FAULTS).plant;
    StepOpIsLocal(p, w.pass.todo[0].id, w.pass.op, NO_FAULTS, id);
    assert Lookup(p.db.rows, id) == ViewOf(p, id).row && Lookup(p'.db.rows, id) == ViewOf(p', id).row;
  }

  lemma NearerToReap(w: World, id: string, expiresAt: int, i: nat) returns (j: nat)
    requires Inv(w) && LeaseStands(w, id, expiresAt) && !Settled(w.db.rows[id].state) && w.pass.Working?
    requires 0 < i < |w.pass.todo| && Lapsed(w.pass.todo[i], id, w.db.rows[id].version, w.pass.now)
    ensures var w' := Next(w, PassCall(NO_FAULTS));
            && Inv(w') && LeaseStands(w', id, expiresAt) && !Settled(w'.db.rows[id].state) && w'.pass.Working?
            && j < |w'.pass.todo| && Lapsed(w'.pass.todo[j], id, w'.db.rows[id].version, w'.pass.now)
            && (j < i || (j == i && Rank(w'.pass.op) < Rank(w.pass.op)))
  {
    NextKeepsInv(w, PassCall(NO_FAULTS));
    assert w.pass.todo[0].id != w.pass.todo[i].id;
    CallForAnother(w, id);
    j := if Next(w, PassCall(NO_FAULTS)).pass.todo == w.pass.todo then i else i - 1;
  }

  lemma LapsedBeginsWithReap(item: Item, now: int)
    requires item.id != "" && item.desired.Some? && now > item.desired.value.expiresAt
    requires item.desired.value.state == Pending || item.desired.value.state == Running
    ensures var row := item.desired.value;
            var mark := Mark(row.state, Failed, REAPED, row.version);
            FirstOp(item, now) == if item.observed.Some? then CallDestroy(mark) else mark
  {
  }

  lemma DestroyLeadsToMark(w: World, id: string, mark: Op)
    requires w.pass.Working? && w.pass.todo != [] && w.pass.todo[0].id == id && ValidSandboxID(id)
    requires w.pass.op == CallDestroy(mark) && mark.Mark?
    ensures var w' := Next(w, PassCall(NO_FAULTS));
            w'.db == w.db && w'.clock == w.clock && w'.pass == Working(w.pass.now, w.pass.todo, mark, true)
  {
  }

  lemma HeadIsCurrent(w: World, id: string)
    requires Inv(w) && id in w.db.rows && w.pass.Working?
    requires Lapsed(w.pass.todo[0], id, w.db.rows[id].version, w.pass.now)
    ensures ValidSandboxID(id) && RowSound(w.db, id)
    ensures w.pass.todo[0].desired.value.state == w.db.rows[id].state
    ensures var first := FirstOp(w.pass.todo[0], w.pass.now); w.pass.op == first || Follows(first, w.pass.op)
  {
    var item := w.pass.todo[0];
    assert ItemSeen(w.db, item) && RowOk(w, id) && RowSound(w.db, id);
    assert Seen(w.db, id, item.desired.value);
  }

  // The pass is at the reap's mark, which would commit, or at the destroy before it.
  lemma HeadIsAtReap(w: World, id: string)
    requires Inv(w) && id in w.db.rows && !Settled(w.db.rows[id].state) && w.pass.Working?
    requires Lapsed(w.pass.todo[0], id, w.db.rows[id].version, w.pass.now)
    ensures ValidSandboxID(id)
    ensures var row := w.db.rows[id];
            var mark := Mark(row.state, Failed, REAPED, row.version);
            && (w.pass.op == mark || w.pass.op == CallDestroy(mark))
            && UpdateState(w.db, id, row.state, Failed, REAPED, row.version, NoFault).result.Ok?
  {
    var row := w.db.rows[id];
    HeadIsCurrent(w, id);
    VersionFollowsState(w.db, id);
    LapsedBeginsWithReap(w.pass.todo[0], w.pass.now);
    TransitionCommits(w.db, id, row.state, Failed, REAPED, row.version, NoFault);
  }

  lemma HeadIsReaped(w: World, id: string, expiresAt: int) returns (ss: seq<Step>)
    requires Inv(w) && LeaseStands(w, id, expiresAt) && !Settled(w.db.rows[id].state) && w.pass.Working?
    requires Lapsed(w.pass.todo[0], id, w.db.rows[id].version, w.pass.now)
    ensures ReapFollows(w, id, expiresAt, ss)
  {
    var row := w.db.rows[id];
    var mark := Mark(row.state, Failed, REAPED, row.version);
    HeadIsAtReap(w, id);
    if w.pass.op == mark {
      ss := [];
      ReapNow(w, id, expiresAt);
    } else {
      assert w.pass.op == CallDestroy(mark);
      var w' := Next(w, PassCall(NO_FAULTS));
      DestroyLeadsToMark(w, id, mark);
      ReapNow(w', id, expiresAt);
      ss := [PassCall(NO_FAULTS)] + [];
      ReapAfterStep(w, PassCall(NO_FAULTS), id, expiresAt, []);
    }
  }

  /** A pass that has the row on its list as lapsed works its way to the reap. */
  lemma {:induction false} LapsedIsReaped(w: World, id: string, expiresAt: int, i: nat) returns (ss: seq<Step>)
    requires Inv(w) && LeaseStands(w, id, expiresAt) && !Settled(w.db.rows[id].state) && w.pass.Working?
    requires i < |w.pass.todo| && Lapsed(w.pass.todo[i], id, w.db.rows[id].version, w.pass.now)
    ensures ReapFollows(w, id, expiresAt, ss)
    decreases i, Rank(w.pass.op)
  {
    if i == 0 {
      ss := HeadIsReaped(w, id, expiresAt);
    } else {
      var j := NearerToReap(w, id, expiresAt, i);
      var rest := LapsedIsReaped(Next(w, PassCall(NO_FAULTS)), id, expiresAt, j);
      ss := [PassCall(NO_FAULTS)] + rest;
      ReapAfterStep(w, PassCall(NO_FAULTS), id, expiresAt, rest);
    }
  }

  lemma {:induction false} ItemsExist(rows: map<string, Row>, cs: map<string, CState>, ids: set<string>)
      returns (items: seq<Item>)
    requires forall id :: id in ids ==> id in rows || id in cs
    ensures forall i, j :: 0 <= i < j < |items| ==> items[i].id != items[j].id
    ensures forall i :: 0 <= i < |items| ==>
              items[i] == Item(items[i].id, Lookup(rows, items[i].id), Lookup(cs, items[i].id)) && items[i].id in ids
    ensures forall id {:trigger id in ids} :: id in ids ==> exists i :: 0 <= i < |items| && items[i].id == id
    decreases |ids|
  {
    items := [];
    if ids != {} {
      var id :| id in ids;
      var rest := ItemsExist(rows, cs, ids - {id});
      items := rest + [Item(id, Lookup(rows, id), Lookup(cs, id))];
      forall other | other in ids
        ensures exists i :: 0 <= i < |items| && items[i].id == other
      {
        if other == id {
          assert items[|rest|].id == id;
        } else {
          assert other in ids - {id};
          var i :| 0 <= i < |rest| && rest[i].id == other;
          assert items[i].id == other;
        }
      }
    }
  }

  lemma LateClock(w: World, id: string, expiresAt: int) returns (i: nat)
    requires w.pass.Joined? && StaleLease(w, id, expiresAt)
    ensures var w' := Next(Next(w, Tick(expiresAt)), ReadClock);
            && w'.db == w.db && w'.clock == expiresAt && w'.pass.Working?
            && i < |w'.pass.todo| && Lapsed(w'.pass.todo[i], id, w.db.rows[id].version, w'.pass.now)
  {
    i :| 0 <= i < |w.pass.items| && Lapsed(w.pass.items[i], id, w.db.rows[id].version, expiresAt);
  }

  /** A pass yet to read the clock may read it late and find the row lapsed. */
  lemma StaleItemsAreReaped(w: World, id: string, expiresAt: int) returns (ss: seq<Step>)
    requires Inv(w) && LeaseStands(w, id, expiresAt) && !Settled(w.db.rows[id].state)
    requires w.pass.Joined? && StaleLease(w, id, expiresAt)
    ensures ReapFollows(w, id, expiresAt, ss)
  {
    var tick := Tick(expiresAt);
    var w1 := Next(w, tick);
    NextKeepsInv(w, tick);
    NextKeepsInv(w1, ReadClock);
    var i := LateClock(w, id, expiresAt);
    var rest := LapsedIsReaped(Next(w1, ReadClock), id, expiresAt, i);
    ReapAfterStep(w1, ReadClock, id, expiresAt, rest);
    ReapAfterStep(w, tick, id, expiresAt, [ReadClock] + rest);
    ss := [tick] + ([ReadClock] + rest);
  }

  lemma ListingStaysStale(w: World, id: string, expiresAt: int, items: seq<Item>)
    requires w.pass.Listed? && StaleLease(w, id, expiresAt) && OuterJoin(w.pass.rows, w.cs, items)
    ensures Next(w, ListContainers(items, false)) == w.(pass := Joined(items))
    ensures StaleLease(w.(pass := Joined(items)), id, expiresAt)
  {
    var i :| 0 <= i < |items| && items[i].id == id;
    assert items[i].desired == Lookup(w.pass.rows, id);
    assert Lapsed(items[i], id, w.db.rows[id].version, expiresAt);
  }

  lemma StaleListingIsReaped(w: World, id: string, expiresAt: int) returns (ss: seq<Step>)
    requires Inv(w) && LeaseStands(w, id, expiresAt) && !Settled(w.db.rows[id].state)
    requires w.pass.Listed? && StaleLease(w, id, expiresAt)
    ensures ReapFollows(w, id, expiresAt, ss)
  {
    var rows := w.pass.rows;
    var items := ItemsExist(rows, w.cs, rows.Keys + w.cs.Keys);
    assert OuterJoin(rows, w.cs, items);
    var list := ListContainers(items, false);
    NextKeepsInv(w, list);
    ListingStaysStale(w, id, expiresAt, items);
    var rest := StaleItemsAreReaped(Next(w, list), id, expiresAt);
    ReapAfterStep(w, list, id, expiresAt, rest);
    ss := [list] + rest;
  }

  lemma StaleIsReaped(w: World, id: string, expiresAt: int) returns (ss: seq<Step>)
    requires Inv(w) && LeaseStands(w, id, expiresAt) && !Settled(w.db.rows[id].state) && StaleLease(w, id, expiresAt)
    ensures ReapFollows(w, id, expiresAt, ss)
  {
    if w.pass.Listed? {
      ss := StaleListingIsReaped(w, id, expiresAt);
    } else if w.pass.Joined? {
      ss := StaleItemsAreReaped(w, id, expiresAt);
    } else {
      var i :| 0 <= i < |w.pass.todo| && Lapsed(w.pass.todo[i], id, w.db.rows[id].version, w.pass.now);
      ss := LapsedIsReaped(w, id, expiresAt, i);
    }
  }

  /** At any point of any run, faults included, the lease of a live row keeps its sandbox
      from being reaped for as long as it stands if and only if no pass in flight has
      this version of the row on its list under an older lease. */
  lemma LeaseKeepsIff(ss: seq<Step>, id: string)
    requires var w := Run(INIT, ss);
             id in w.db.rows && !Settled(w.db.rows[id].state) && w.clock <= w.db.rows[id].expiresAt
    ensures var w := Run(INIT, ss);
            LeaseKeeps(w, id) <==> !StaleLease(w, id, w.db.rows[id].expiresAt)
  {
    RunsAreSafe(ss);
    var w := Run(INIT, ss);
    var expiresAt := w.db.rows[id].expiresAt;
    if StaleLease(w, id, expiresAt) {
      var bad := StaleIsReaped(w, id, expiresAt);
      assert LeaseLives(w, bad, id, expiresAt) && ReapsNow(Run(w, bad), id, NO_FAULTS);
    } else {
      forall more, f | LeaseLives(w, more, id, expiresAt)
        ensures !ReapsNow(Run(w, more), id, f)
      {
        RunKeepsFresh(w, more, id, expiresAt);
        RunAppends(INIT, ss, more);
        RunKeepsPending(ss + more, id);
        FreshIsNotReaped(Run(w, more), id, expiresAt, f);
      }
    }
  }
}
