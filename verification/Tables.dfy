/** The three tables as one value, and each store transaction as a function on it
    (internal/store/sqlite/sqlite.go and its migration).  A transaction is atomic: it
    returns either the new tables or the old ones. */
module Tables {
  import opened Wrappers
  import opened Lifecycle
  import opened SpecResolve

  datatype Row = Row(version: int, state: TaskState, spec: SpecFile, expiresAt: int)

  // A row together with its platform id.
  datatype Sandbox = Sandbox(id: string, row: Row)

  datatype Event = Event(sandboxID: string, version: int, from: TaskState, to: TaskState, reason: string)

  // platform_id and idempotency_key are unique columns, hence map keys.
  datatype DB = DB(rows: map<string, Row>, keys: map<string, string>, events: seq<Event>)

  const EMPTY_DB := DB(map[], map[], [])

  const ZERO_TIME: int := 0
  const FIRST_VERSION: int := 1

  // Where in a transaction the engine fails, if it does.
  datatype Fault = NoFault | AtBegin | AtStatement | AtReread | AtKey | AtEvent | AtCommit

  datatype Tx<+T> = Tx(db: DB, result: Result<T>)

  // ---- The event log ----

  function ValidateEvent(e: Event): (r: Result<()>)
    ensures r.Ok? <==> e.sandboxID != "" && e.version >= 1 && e.to != NO_STATE && e.reason != ""
    ensures r.Err? ==> r.error == ErrInvalidEvent
  {
    if e.sandboxID == "" then Err(ErrInvalidEvent)
    else if e.version < 1 then Err(ErrInvalidEvent)
    else if e.to == NO_STATE then Err(ErrInvalidEvent)
    else if e.reason == "" then Err(ErrInvalidEvent)
    else Ok(())
  }

  // The unique index on (sandbox_id, version_id).
  predicate Recorded(events: seq<Event>, id: string, version: int) {
    exists k :: 0 <= k < |events| && events[k].sandboxID == id && events[k].version == version
  }

  function AppendEvent(events: seq<Event>, e: Event, fault: Fault): Result<seq<Event>> {
    match ValidateEvent(e)
    case Err(err) => Err(err)
    case Ok(_) =>
      if fault.AtEvent? || Recorded(events, e.sandboxID, e.version) then Err(ErrDatabase) else Ok(events + [e])
  }

  function History(events: seq<Event>, id: string): (h: seq<Event>)
    ensures |h| <= |events|
    ensures forall k :: 0 <= k < |h| ==> h[k].sandboxID == id && h[k] in events
  {
    if events == [] then []
    else
      var last := events[|events| - 1];
      History(events[..|events| - 1], id) + (if last.sandboxID == id then [last] else [])
  }

  lemma HistoryOfAppend(events: seq<Event>, e: Event, id: string)
    ensures History(events + [e], id) == History(events, id) + (if e.sandboxID == id then [e] else [])
  {
  }

  lemma {:induction false} RecordedInHistory(events: seq<Event>, id: string, version: int)
    ensures Recorded(events, id, version) <==> Recorded(History(events, id), id, version)
  {
    if events != [] {
      var front, last := events[..|events| - 1], events[|events| - 1];
      var h, hf := History(events, id), History(front, id);
      RecordedInHistory(front, id, version);
      if Recorded(events, id, version) {
        var k :| 0 <= k < |events| && events[k].sandboxID == id && events[k].version == version;
        if k < |front| {
          assert front[k] == events[k];
          var j :| 0 <= j < |hf| && hf[j].sandboxID == id && hf[j].version == version;
          assert h[j] == hf[j];
        } else {
          assert h[|hf|] == last;
        }
      }
    }
  }

  /** The history of a row: versions 1..n without gaps, chained from the empty state
      along legal edges, ending at the row's state, n being the row's version. */
  ghost predicate Chain(h: seq<Event>, id: string, state: TaskState, version: int) {
    && id != ""
    && |h| == version >= 1
    && h[0].from == NO_STATE && h[0].to == Pending
    && (forall k :: 0 <= k < |h| ==> h[k].sandboxID == id && h[k].version == k + 1 && h[k].reason != "")
    && (forall k :: 1 <= k < |h| ==> h[k].from == h[k - 1].to && Legal(h[k].from, h[k].to))
    && h[|h| - 1].to == state
  }

  ghost predicate RowSound(db: DB, id: string) {
    if id in db.rows then Chain(History(db.events, id), id, db.rows[id].state, db.rows[id].version)
    else History(db.events, id) == []
  }

  /** A sound history is already in version order, so ordering a sandbox's events by
      version gives them in the order they were appended. */
  lemma HistoryIsOrdered(db: DB, id: string)
    requires RowSound(db, id)
    ensures var h := History(db.events, id); forall i, j :: 0 <= i < j < |h| ==> h[i].version < h[j].version
  {
  }

  // ---- Transactions ----

  // Why a guarded update matched no row: one more read tells, unless it fails.
  function Missed(db: DB, id: string, fault: Fault): Error {
    if fault.AtReread? then ErrDatabase else if id in db.rows then ErrInvalidStateTransition else ErrRowNotFound
  }

  // The end of a transition: the new row and the new log, if both are to be had.
  function CommitRow(db: DB, id: string, row: Row, log: Result<seq<Event>>, fault: Fault): (tx: Tx<Row>)
    ensures tx.result.Err? ==> tx.db == db
  {
    match log
    case Err(e) => Tx(db, Err(e))
    case Ok(events) =>
      if fault.AtCommit? then Tx(db, Err(ErrDatabase))
      else Tx(db.(rows := db.rows[id := row], events := events), Ok(row))
  }

  function UpdateState(db: DB, id: string, from: TaskState, to: TaskState, reason: string, version: int,
      fault: Fault): (tx: Tx<Row>)
    ensures tx.result.Err? ==> tx.db == db
  {
    match CanTransition(from, to)
    case Err(e) => Tx(db, Err(e))
    case Ok(_) =>
      if fault.AtBegin? || fault.AtStatement? then Tx(db, Err(ErrDatabase))
      else if id !in db.rows || db.rows[id].state != from || db.rows[id].version != version then
        Tx(db, Err(Missed(db, id, fault)))
      else
        var row := db.rows[id].(state := to, version := version + 1);
        CommitRow(db, id, row, AppendEvent(db.events, Event(id, row.version, from, to, reason), fault), fault)
  }

  function UpdateExpiry(db: DB, id: string, expiresAt: int, fault: Fault): (tx: Tx<Row>)
    ensures tx.result.Err? ==> tx.db == db
  {
    if expiresAt == ZERO_TIME then Tx(db, Err(ErrMissingExpiry))
    else if fault.AtBegin? || fault.AtStatement? then Tx(db, Err(ErrDatabase))
    else if id !in db.rows || (db.rows[id].state != Pending && db.rows[id].state != Running) then
      Tx(db, Err(Missed(db, id, fault)))
    else if fault.AtCommit? then Tx(db, Err(ErrDatabase))
    else
      var row := db.rows[id].(expiresAt := expiresAt);
      Tx(db.(rows := db.rows[id := row]), Ok(row))
  }

  /** The transaction of CreateSandbox; id is the freshly minted platform id. */
  function InsertSandbox(db: DB, key: string, id: string, spec: SpecFile, expiresAt: int, fault: Fault): (tx: Tx<Row>)
    ensures tx.result.Err? ==> tx.db == db
  {
    if fault.AtBegin? || fault.AtStatement? || id in db.rows then Tx(db, Err(ErrDatabase))
    else
      var row := Row(FIRST_VERSION, Pending, spec, expiresAt);
      if fault.AtKey? || key in db.keys then Tx(db, Err(ErrDatabase))
      else
        match AppendEvent(db.events, Event(id, row.version, NO_STATE, row.state, "sandbox record created"), fault)
        case Err(e) => Tx(db, Err(e))
        case Ok(events) =>
          if fault.AtCommit? then Tx(db, Err(ErrDatabase))
          else Tx(DB(db.rows[id := row], db.keys[key := id], events), Ok(row))
  }

  // Faults of the store's CreateSandbox: the key lookup, the replay's read, the insert.
  datatype CreateFaults = CreateFaults(lookup: bool, fetch: bool, insert: Fault)

  function FetchRow(db: DB, id: string, fails: bool): Result<Sandbox> {
    if fails then Err(ErrDatabase)
    else if id in db.rows then Ok(Sandbox(id, db.rows[id]))
    else Err(ErrRowNotFound)
  }

  /** The store's CreateSandbox with nothing running between its steps. */
  function CreateOrReplay(db: DB, key: string, id: string, spec: SpecFile, expiresAt: int,
      f: CreateFaults): Tx<Sandbox>
  {
    if expiresAt == ZERO_TIME then Tx(db, Err(ErrMissingExpiry))
    else if f.lookup then Tx(db, Err(ErrDatabase))
    else if key in db.keys then Tx(db, FetchRow(db, db.keys[key], f.fetch))
    else
      var tx := InsertSandbox(db, key, id, spec, expiresAt, f.insert);
      Tx(tx.db, match tx.result case Err(e) => Err(e) case Ok(row) => Ok(Sandbox(id, row)))
  }

  datatype StoreOp =
    | StateOp(id: string, from: TaskState, to: TaskState, reason: string, version: int, fault: Fault)
    | ExpiryOp(id: string, expiresAt: int, fault: Fault)
    | InsertOp(key: string, id: string, spec: SpecFile, expiresAt: int, fault: Fault)

  function Apply(db: DB, op: StoreOp): Tx<Row> {
    match op
    case StateOp(id, from, to, reason, version, fault) => UpdateState(db, id, from, to, reason, version, fault)
    case ExpiryOp(id, expiresAt, fault) => UpdateExpiry(db, id, expiresAt, fault)
    case InsertOp(key, id, spec, expiresAt, fault) => InsertSandbox(db, key, id, spec, expiresAt, fault)
  }

  /** A run of the store: any callers, any arguments, any faults, in commit order. */
  function RunOps(db: DB, ops: seq<StoreOp>): DB
    decreases |ops|
  {
    if ops == [] then db else RunOps(Apply(db, ops[0]).db, ops[1..])
  }

  // ---- What every run keeps ----

  /** Keys and rows pair off: a key names an existing row, and every row has exactly
      the one key its create carried. */
  ghost predicate KeysPairOff(db: DB) {
    && (forall k :: k in db.keys ==> db.keys[k] in db.rows)
    && (forall k, k' :: k in db.keys && k' in db.keys && db.keys[k] == db.keys[k'] ==> k == k')
    && (forall id :: id in db.rows ==> exists k :: k in db.keys && db.keys[k] == id)
  }

  ghost predicate Sound(db: DB) {
    && (forall id :: RowSound(db, id))
    && KeysPairOff(db)
  }

  /** How a row may look later in a run. */
  predicate Later(r: Row, r': Row) {
    && r'.spec == r.spec
    && r'.version >= r.version
    && (r'.version == r.version ==> r'.state == r.state)
    && (Settled(r.state) ==> Settled(r'.state) && r'.expiresAt == r.expiresAt)
    && (Terminal(r.state) ==> r' == r)
  }

  /** Nothing recorded is ever lost: rows only move on, keys keep their sandbox, and
      the event log is append-only. */
  ghost predicate Grown(db: DB, db': DB) {
    && (forall id :: id in db.rows ==> id in db'.rows && Later(db.rows[id], db'.rows[id]))
    && (forall k :: k in db.keys ==> k in db'.keys && db'.keys[k] == db.keys[k])
    && db.events <= db'.events
  }

  lemma GrownTransitive(a: DB, b: DB, c: DB)
    requires Grown(a, b) && Grown(b, c)
    ensures Grown(a, c)
  {
  }

  /** A sound history fixes the version of every state, so no row passes version 4. */
  lemma VersionFollowsState(db: DB, id: string)
    requires RowSound(db, id) && id in db.rows
    ensures StepsFit(db.rows[id].state, db.rows[id].version - 1)
    ensures 1 <= db.rows[id].version <= 4
  {
    var h := History(db.events, id);
    var states := seq(|h|, k requires 0 <= k < |h| => h[k].to);
    assert Walk(states) by {
      forall k | 1 <= k < |states|
        ensures Legal(states[k - 1], states[k])
      {
        assert h[k].from == h[k - 1].to && Legal(h[k].from, h[k].to);
      }
    }
    WalkIsShort(states);
  }

  // A sound row's next version is not yet in the log.
  lemma NextVersionIsFree(db: DB, id: string)
    requires RowSound(db, id)
    ensures id in db.rows ==> !Recorded(db.events, id, db.rows[id].version + 1)
    ensures id !in db.rows ==> !Recorded(db.events, id, FIRST_VERSION)
  {
    var next := if id in db.rows then db.rows[id].version + 1 else FIRST_VERSION;
    RecordedInHistory(db.events, id, next);
  }

  /** Exactly when a transition commits: the edge is legal, the row still carries the
      observed state and version, the reason is not empty, and the engine does not fail.
      Then it takes the row one version on and appends that one event. */
  lemma TransitionCommits(db: DB, id: string, from: TaskState, to: TaskState, reason: string, version: int,
      fault: Fault)
    requires RowSound(db, id)
    ensures var tx := UpdateState(db, id, from, to, reason, version, fault);
            && (tx.result.Ok? <==>
                && Legal(from, to)
                && id in db.rows && db.rows[id].state == from && db.rows[id].version == version
                && reason != "" && (fault.NoFault? || fault.AtReread? || fault.AtKey?))
            && (tx.result.Ok? ==>
                && tx.db.rows == db.rows[id := db.rows[id].(state := to, version := version + 1)]
                && tx.db.keys == db.keys
                && tx.db.events == db.events + [Event(id, version + 1, from, to, reason)])
  {
    NextVersionIsFree(db, id);
  }

  /** A keepalive commits exactly on a live row and moves that row's expiry alone. */
  lemma RenewalCommits(db: DB, id: string, expiresAt: int, fault: Fault)
    ensures var tx := UpdateExpiry(db, id, expiresAt, fault);
            && (tx.result.Ok? <==>
                && expiresAt != ZERO_TIME && (fault.NoFault? || fault.AtReread? || fault.AtKey? || fault.AtEvent?)
                && id in db.rows && !Settled(db.rows[id].state) && !db.rows[id].state.Other?)
            && (tx.result.Ok? ==> tx.db == db.(rows := db.rows[id := db.rows[id].(expiresAt := expiresAt)]))
            && (tx.result.Err? ==> tx.db == db)
  {
  }

  /** A create commits exactly when both its id and its key are new. */
  lemma InsertCommits(db: DB, key: string, id: string, spec: SpecFile, expiresAt: int, fault: Fault)
    requires RowSound(db, id)
    ensures var tx := InsertSandbox(db, key, id, spec, expiresAt, fault);
            && (tx.result.Ok? <==> id != "" && id !in db.rows && key !in db.keys && (fault.NoFault? || fault.AtReread?))
            && (tx.result.Ok? ==>
                && tx.db.rows == db.rows[id := Row(1, Pending, spec, expiresAt)]
                && tx.db.keys == db.keys[key := id]
                && tx.db.events == db.events + [Event(id, 1, NO_STATE, Pending, "sandbox record created")])
  {
    NextVersionIsFree(db, id);
  }

  lemma AppendKeepsOthers(db: DB, db': DB, e: Event)
    requires forall id :: RowSound(db, id)
    requires db'.events == db.events + [e]
    requires forall id :: id != e.sandboxID ==> (id in db.rows <==> id in db'.rows)
    requires forall id :: id != e.sandboxID && id in db.rows ==> db'.rows[id] == db.rows[id]
    ensures forall id :: id != e.sandboxID ==> RowSound(db', id)
  {
    forall id | id != e.sandboxID
      ensures RowSound(db', id)
    {
      HistoryOfAppend(db.events, e, id);
      assert RowSound(db, id);
    }
  }

  lemma ChainExtends(h: seq<Event>, id: string, from: TaskState, to: TaskState, reason: string, version: int)
    requires Chain(h, id, from, version) && Legal(from, to) && reason != ""
    ensures Chain(h + [Event(id, version + 1, from, to, reason)], id, to, version + 1)
  {
  }

  // Replacing one row leaves the keys paired off.
  lemma UpdateKeepsPairing(db: DB, db': DB)
    requires KeysPairOff(db) && db'.keys == db.keys && db'.rows.Keys == db.rows.Keys
    ensures KeysPairOff(db')
  {
  }

  // The new tables of a committed transition.
  function Transitioned(db: DB, e: Event): DB
    requires e.sandboxID in db.rows
  {
    var row := db.rows[e.sandboxID].(state := e.to, version := e.version);
    db.(rows := db.rows[e.sandboxID := row], events := db.events + [e])
  }

  lemma TransitionKeepsRows(db: DB, e: Event)
    requires Sound(db) && e.sandboxID in db.rows
    requires db.rows[e.sandboxID].state == e.from && db.rows[e.sandboxID].version + 1 == e.version
    requires Legal(e.from, e.to) && e.reason != ""
    ensures forall id :: RowSound(Transitioned(db, e), id)
  {
    var db' := Transitioned(db, e);
    AppendKeepsOthers(db, db', e);
    assert RowSound(db, e.sandboxID);
    HistoryOfAppend(db.events, e, e.sandboxID);
    ChainExtends(History(db.events, e.sandboxID), e.sandboxID, e.from, e.to, e.reason, e.version - 1);
    assert RowSound(db', e.sandboxID);
  }

  lemma TransitionGrows(db: DB, e: Event)
    requires e.sandboxID in db.rows
    requires db.rows[e.sandboxID].state == e.from && db.rows[e.sandboxID].version + 1 == e.version
    requires Legal(e.from, e.to)
    ensures Grown(db, Transitioned(db, e))
  {
  }

  lemma StateOpKeepsSound(db: DB, op: StoreOp)
    requires Sound(db) && op.StateOp?
    ensures Sound(Apply(db, op).db) && Grown(db, Apply(db, op).db)
  {
    var tx := UpdateState(db, op.id, op.from, op.to, op.reason, op.version, op.fault);
    if tx.result.Ok? {
      assert RowSound(db, op.id);
      TransitionCommits(db, op.id, op.from, op.to, op.reason, op.version, op.fault);
      var e := Event(op.id, op.version + 1, op.from, op.to, op.reason);
      assert tx.db == Transitioned(db, e);
      TransitionKeepsRows(db, e);
      TransitionGrows(db, e);
      UpdateKeepsPairing(db, tx.db);
    }
  }

  // Tables that differ in expiries alone are as sound, and grown if no settled row's moved.
  lemma ExpiryKeepsSound(db: DB, db': DB)
    requires Sound(db) && db'.keys == db.keys && db'.events == db.events && db'.rows.Keys == db.rows.Keys
    requires forall id :: id in db.rows ==> db'.rows[id] == db.rows[id].(expiresAt := db'.rows[id].expiresAt)
    ensures Sound(db')
  {
    forall id
      ensures RowSound(db', id)
    {
      assert RowSound(db, id);
    }
    UpdateKeepsPairing(db, db');
  }

  lemma ExpiryOpKeepsSound(db: DB, op: StoreOp)
    requires Sound(db) && op.ExpiryOp?
    ensures Sound(Apply(db, op).db) && Grown(db, Apply(db, op).db)
  {
    RenewalCommits(db, op.id, op.expiresAt, op.fault);
    ExpiryKeepsSound(db, Apply(db, op).db);
  }

  lemma InsertedKeepsRows(db: DB, db': DB, id: string, row: Row)
    requires Sound(db) && id != "" && id !in db.rows && row.version == 1 && row.state == Pending
    requires db'.rows == db.rows[id := row]
    requires db'.events == db.events + [Event(id, 1, NO_STATE, Pending, "sandbox record created")]
    ensures forall other :: RowSound(db', other)
  {
    var e := Event(id, 1, NO_STATE, Pending, "sandbox record created");
    AppendKeepsOthers(db, db', e);
    assert RowSound(db, id);
    HistoryOfAppend(db.events, e, id);
    assert RowSound(db', id);
  }

  lemma InsertGrows(db: DB, db': DB, id: string, key: string)
    requires id !in db.rows && key !in db.keys
    requires id in db'.rows && db'.rows == db.rows[id := db'.rows[id]]
    requires key in db'.keys && db'.keys == db.keys[key := db'.keys[key]]
    requires db.events <= db'.events
    ensures Grown(db, db')
  {
  }

  lemma InsertKeepsPairing(db: DB, db': DB, key: string, id: string)
    requires KeysPairOff(db) && key !in db.keys && id !in db.rows
    requires db'.keys == db.keys[key := id] && db'.rows.Keys == db.rows.Keys + {id}
    ensures KeysPairOff(db')
  {
    forall i | i in db'.rows
      ensures exists k :: k in db'.keys && db'.keys[k] == i
    {
      if i == id {
        assert db'.keys[key] == i;
      } else {
        assert i in db.rows;
        var k :| k in db.keys && db.keys[k] == i;
        assert db'.keys[k] == i;
      }
    }
  }

  lemma InsertOpKeepsSound(db: DB, op: StoreOp)
    requires Sound(db) && op.InsertOp?
    ensures Sound(Apply(db, op).db) && Grown(db, Apply(db, op).db)
  {
    var tx := Apply(db, op);
    if tx.result.Ok? {
      assert RowSound(db, op.id);
      InsertCommits(db, op.key, op.id, op.spec, op.expiresAt, op.fault);
      InsertedKeepsRows(db, tx.db, op.id, Row(1, Pending, op.spec, op.expiresAt));
      InsertKeepsPairing(db, tx.db, op.key, op.id);
      InsertGrows(db, tx.db, op.id, op.key);
    }
  }

  lemma ApplyKeepsSound(db: DB, op: StoreOp)
    requires Sound(db)
    ensures Sound(Apply(db, op).db) && Grown(db, Apply(db, op).db)
  {
    match op
    case StateOp(_, _, _, _, _, _) => StateOpKeepsSound(db, op);
    case ExpiryOp(_, _, _) => ExpiryOpKeepsSound(db, op);
    case InsertOp(_, _, _, _, _) => InsertOpKeepsSound(db, op);
  }

  lemma {:induction false} RunKeepsSound(db: DB, ops: seq<StoreOp>)
    requires Sound(db)
    ensures Sound(RunOps(db, ops)) && Grown(db, RunOps(db, ops))
    decreases |ops|
  {
    if ops != [] {
      var db' := Apply(db, ops[0]).db;
      ApplyKeepsSound(db, ops[0]);
      RunKeepsSound(db', ops[1..]);
      GrownTransitive(db, db', RunOps(db', ops[1..]));
    }
  }

  /** Every history ever recorded, whatever the callers and the engine do: complete,
      legal, consistent with its row, and at most four events long. */
  lemma EveryHistoryIsSound(ops: seq<StoreOp>, id: string)
    ensures var db := RunOps(EMPTY_DB, ops);
            if id in db.rows then
              && Chain(History(db.events, id), id, db.rows[id].state, db.rows[id].version)
              && StepsFit(db.rows[id].state, db.rows[id].version - 1)
              && |History(db.events, id)| <= 4
            else History(db.events, id) == []
  {
    RunKeepsSound(EMPTY_DB, ops);
    var db := RunOps(EMPTY_DB, ops);
    assert RowSound(db, id);
    if id in db.rows {
      VersionFollowsState(db, id);
    }
  }

  /** Optimistic concurrency: of all writers that observed one version of a sandbox, at
      most one commits, however the run continues between them. */
  lemma OneWriterPerVersion(db: DB, first: StoreOp, between: seq<StoreOp>, second: StoreOp)
    requires Sound(db) && first.StateOp? && second.StateOp?
    requires first.id == second.id && first.version == second.version
    requires Apply(db, first).result.Ok?
    ensures Apply(RunOps(Apply(db, first).db, between), second).result.Err?
  {
    var db1 := Apply(db, first).db;
    ApplyKeepsSound(db, first);
    RunKeepsSound(db1, between);
    assert RowSound(db, first.id);
    TransitionCommits(db, first.id, first.from, first.to, first.reason, first.version, first.fault);
    assert Later(db1.rows[first.id], RunOps(db1, between).rows[first.id]);
  }

  lemma {:induction false} HistoryOfPrefix(a: seq<Event>, b: seq<Event>, id: string)
    requires a <= b
    ensures History(a, id) <= History(b, id)
  {
    if |a| < |b| {
      assert a == b[..|a|] == b[..|b| - 1][..|a|];
      HistoryOfPrefix(a, b[..|b| - 1], id);
    } else {
      assert a == b;
    }
  }

  /** A settled sandbox never becomes pending or running again and no keepalive moves its
      expiry; a stopped or failed one never changes at all. */
  lemma SettledStaysSettled(db: DB, ops: seq<StoreOp>, id: string)
    requires Sound(db) && id in db.rows && Settled(db.rows[id].state)
    ensures var db' := RunOps(db, ops);
            && id in db'.rows && Settled(db'.rows[id].state) && db'.rows[id].expiresAt == db.rows[id].expiresAt
            && (Terminal(db.rows[id].state) ==>
              db'.rows[id] == db.rows[id] && History(db'.events, id) == History(db.events, id))
  {
    RunKeepsSound(db, ops);
    var db' := RunOps(db, ops);
    assert RowSound(db, id) && RowSound(db', id) && Later(db.rows[id], db'.rows[id]);
    HistoryOfPrefix(db.events, db'.events, id);
  }

  /** Two creates that both missed the key: once one has inserted, the other's
      transaction leaves no row, no key and no event, at any later time. */
  lemma LosingCreateLeavesNothing(db: DB, key: string, id: string, spec: SpecFile, expiresAt: int, ops: seq<StoreOp>,
      op: StoreOp)
    requires Sound(db) && op.InsertOp? && op.key == key
    requires InsertSandbox(db, key, id, spec, expiresAt, NoFault).result.Ok?
    ensures var db' := RunOps(InsertSandbox(db, key, id, spec, expiresAt, NoFault).db, ops);
            && Apply(db', op) == Tx(db', Err(ErrDatabase))
            && key in db'.keys && db'.keys[key] == id
            && id in db'.rows && db'.rows[id].spec == spec
  {
    var first := InsertOp(key, id, spec, expiresAt, NoFault);
    ApplyKeepsSound(db, first);
    RunKeepsSound(Apply(db, first).db, ops);
    assert RowSound(db, id);
    InsertCommits(db, key, id, spec, expiresAt, NoFault);
    assert Later(Apply(db, first).db.rows[id], RunOps(Apply(db, first).db, ops).rows[id]);
  }

  // ---- Nobody notices a keepalive ----

  /** The same tables, but for the expiry of one row. */
  ghost predicate SameBut(db: DB, db': DB, id: string) {
    && db'.keys == db.keys && db'.events == db.events
    && db'.rows.Keys == db.rows.Keys
    && (forall other :: other in db.rows && other != id ==> db'.rows[other] == db.rows[other])
    && (id in db.rows ==> db'.rows[id] == db.rows[id].(expiresAt := db'.rows[id].expiresAt))
  }

  lemma StateOpIsBlind(db: DB, db': DB, id: string, op: StoreOp)
    requires SameBut(db, db', id) && op.StateOp?
    ensures Apply(db, op).result.Err? ==> Apply(db', op).result == Apply(db, op).result
    ensures Apply(db, op).result.Ok? ==> Apply(db', op).result.Ok?
    ensures SameBut(Apply(db, op).db, Apply(db', op).db, id)
  {
  }

  lemma ExpiryOpIsBlind(db: DB, db': DB, id: string, op: StoreOp)
    requires SameBut(db, db', id) && op.ExpiryOp?
    ensures Apply(db, op).result.Err? ==> Apply(db', op).result == Apply(db, op).result
    ensures Apply(db, op).result.Ok? ==> Apply(db', op).result.Ok?
    ensures SameBut(Apply(db, op).db, Apply(db', op).db, id)
  {
  }

  lemma InsertOpIsBlind(db: DB, db': DB, id: string, op: StoreOp)
    requires SameBut(db, db', id) && op.InsertOp?
    ensures Apply(db, op).result.Err? ==> Apply(db', op).result == Apply(db, op).result
    ensures Apply(db, op).result.Ok? ==> Apply(db', op).result.Ok?
    ensures SameBut(Apply(db, op).db, Apply(db', op).db, id)
  {
  }

  lemma ApplyIsBlind(db: DB, db': DB, id: string, op: StoreOp)
    requires SameBut(db, db', id)
    ensures Apply(db, op).result.Err? ==> Apply(db', op).result == Apply(db, op).result
    ensures Apply(db, op).result.Ok? ==> Apply(db', op).result.Ok?
    ensures SameBut(Apply(db, op).db, Apply(db', op).db, id)
  {
    match op
    case StateOp(_, _, _, _, _, _) => StateOpIsBlind(db, db', id, op);
    case ExpiryOp(_, _, _) => ExpiryOpIsBlind(db, db', id, op);
    case InsertOp(_, _, _, _, _) => InsertOpIsBlind(db, db', id, op);
  }

  lemma {:induction false} RunIsBlind(db: DB, db': DB, id: string, ops: seq<StoreOp>)
    requires SameBut(db, db', id)
    ensures SameBut(RunOps(db, ops), RunOps(db', ops), id)
    decreases |ops|
  {
    if ops != [] {
      ApplyIsBlind(db, db', id, ops[0]);
      RunIsBlind(Apply(db, ops[0]).db, Apply(db', ops[0]).db, id, ops[1..]);
    }
  }

  /** Nobody notices a keepalive: whatever transactions follow, each commits with it exactly
      if it commits without it, or fails alike, and the tables differ in that one expiry.  No writer
      that observed the row before is held off. */
  lemma RenewalIsUnseen(db: DB, id: string, expiresAt: int, fault: Fault, ops: seq<StoreOp>, next: StoreOp)
    ensures var db' := UpdateExpiry(db, id, expiresAt, fault).db;
            && SameBut(RunOps(db, ops), RunOps(db', ops), id)
            && (Apply(RunOps(db, ops), next).result.Ok? <==> Apply(RunOps(db', ops), next).result.Ok?)
            && (Apply(RunOps(db, ops), next).result.Err? ==>
              Apply(RunOps(db', ops), next).result == Apply(RunOps(db, ops), next).result)
  {
    RenewalCommits(db, id, expiresAt, fault);
    RunIsBlind(db, UpdateExpiry(db, id, expiresAt, fault).db, id, ops);
    ApplyIsBlind(RunOps(db, ops), RunOps(UpdateExpiry(db, id, expiresAt, fault).db, ops), id, next);
  }

  // ---- Listings of rows ----

  function RowMap(sbxs: seq<Sandbox>): (m: map<string, Row>)
    ensures forall id :: id in m <==> exists k :: 0 <= k < |sbxs| && sbxs[k].id == id
  {
    if sbxs == [] then map[]
    else
      var last := sbxs[|sbxs| - 1];
      RowMap(sbxs[..|sbxs| - 1])[last.id := last.row]
  }

  ghost predicate DistinctRows(sbxs: seq<Sandbox>) {
    forall i, j :: 0 <= i < j < |sbxs| ==> sbxs[i].id != sbxs[j].id
  }

  lemma RowMapSnoc(sbxs: seq<Sandbox>, sbx: Sandbox)
    ensures RowMap(sbxs + [sbx]) == RowMap(sbxs)[sbx.id := sbx.row]
  {
  }

  lemma {:induction false} RowMapHolds(sbxs: seq<Sandbox>, k: nat)
    requires DistinctRows(sbxs) && k < |sbxs|
    ensures sbxs[k].id in RowMap(sbxs) && RowMap(sbxs)[sbxs[k].id] == sbxs[k].row
  {
    if k < |sbxs| - 1 {
      RowMapHolds(sbxs[..|sbxs| - 1], k);
    }
  }

  lemma RowMapOfAppend(sbxs: seq<Sandbox>, sbx: Sandbox)
    requires DistinctRows(sbxs) && sbx.id !in RowMap(sbxs)
    ensures DistinctRows(sbxs + [sbx]) && RowMap(sbxs + [sbx]) == RowMap(sbxs)[sbx.id := sbx.row]
  {
    RowMapSnoc(sbxs, sbx);
    forall i | 0 <= i < |sbxs|
      ensures sbxs[i].id != sbx.id
    {
      RowMapHolds(sbxs, i);
    }
  }
}
