/** The store: tables updated in place inside transactions that commit or roll back
    (internal/store/sqlite/sqlite.go). */
module SqliteStore {
  import opened Wrappers
  import opened Lifecycle
  import opened SpecResolve
  import opened Tables

  lemma FewerLeft(left: map<string, Row>, id: string)
    requires id in left
    ensures (left - {id}).Keys == left.Keys - {id}
    ensures |left - {id}| < |left|
  {
    assert |left.Keys - {id}| == |left.Keys| - 1;
  }

  lemma PutBack(rows: map<string, Row>, ids: set<string>, id: string)
    requires id in ids && id in rows
    ensures rows - (ids - {id}) == (rows - ids)[id := rows[id]]
  {
  }

  // Scanning one more of the rows left to scan.
  lemma TakesOneMore(rows: map<string, Row>, left: map<string, Row>, items: seq<Sandbox>, id: string)
    requires left.Keys <= rows.Keys && id in left && left[id] == rows[id]
    requires DistinctRows(items) && RowMap(items) == rows - left.Keys
    ensures var longer := items + [Sandbox(id, left[id])];
            DistinctRows(longer) && RowMap(longer) == rows - (left - {id}).Keys
  {
    RowMapOfAppend(items, Sandbox(id, left[id]));
    FewerLeft(left, id);
    PutBack(rows, left.Keys, id);
  }

  class Store {
    var rows: map<string, Row>
    var keys: map<string, string>
    var events: seq<Event>

    function Db(): DB
      reads this
    {
      DB(rows, keys, events)
    }

    constructor ()
      ensures Db() == EMPTY_DB
    {
      rows, keys, events := map[], map[], [];
    }

    // Undoes everything since the transaction began.
    method Rollback(begun: DB)
      modifies this
      ensures Db() == begun
    {
      rows, keys, events := begun.rows, begun.keys, begun.events;
    }

    method InsertEvent(e: Event, fault: Fault) returns (error: Option<Error>)
      modifies this`events
      ensures match AppendEvent(old(events), e, fault)
              case Ok(log) => error == None && events == log
              case Err(err) => error == Some(err) && events == old(events)
    {
      var valid := ValidateEvent(e);
      if valid.Err? {
        return Some(valid.error);
      }
      var taken := Recorded(events, e.sandboxID, e.version);
      if fault.AtEvent? || taken {
        return Some(ErrDatabase);
      }
      events := events + [e];
      return None;
    }

    // The read that tells an absent row from a stale observation.
    method Reread(id: string, fault: Fault) returns (error: Error)
      ensures error == Missed(Db(), id, fault)
    {
      if fault.AtReread? {
        return ErrDatabase;
      }
      return if id in rows then ErrInvalidStateTransition else ErrRowNotFound;
    }

    method UpdateSandboxState(id: string, from: TaskState, to: TaskState, reason: string, version: int, fault: Fault)
      returns (r: Result<Row>)
      modifies this
      ensures Tx(Db(), r) == UpdateState(old(Db()), id, from, to, reason, version, fault)
    {
      var allowed := CanTransition(from, to);
      if allowed.Err? {
        return Err(allowed.error);
      }
      if fault.AtBegin? {
        return Err(ErrDatabase);
      }
      var begun := Db();
      if fault.AtStatement? {
        Rollback(begun);
        return Err(ErrDatabase);
      }
      if id !in rows || rows[id].state != from || rows[id].version != version {
        var error := Reread(id, fault);
        Rollback(begun);
        return Err(error);
      }
      rows := rows[id := rows[id].(state := to, version := rows[id].version + 1)];
      var row := rows[id];
      var error := InsertEvent(Event(id, row.version, from, to, reason), fault);
      if error.Some? {
        Rollback(begun);
        return Err(error.value);
      }
      if fault.AtCommit? {
        Rollback(begun);
        return Err(ErrDatabase);
      }
      return Ok(row);
    }

    method UpdateSandboxExpiry(id: string, expiresAt: int, fault: Fault) returns (r: Result<Row>)
      modifies this
      ensures Tx(Db(), r) == UpdateExpiry(old(Db()), id, expiresAt, fault)
    {
      if expiresAt == ZERO_TIME {
        return Err(ErrMissingExpiry);
      }
      if fault.AtBegin? || fault.AtStatement? {
        return Err(ErrDatabase);
      }
      var begun := Db();
      if id !in rows || (rows[id].state != Pending && rows[id].state != Running) {
        var error := Reread(id, fault);
        Rollback(begun);
        return Err(error);
      }
      rows := rows[id := rows[id].(expiresAt := expiresAt)];
      var row := rows[id];
      if fault.AtCommit? {
        Rollback(begun);
        return Err(ErrDatabase);
      }
      return Ok(row);
    }

    method GetIdempotencyKey(key: string, fails: bool) returns (r: Result<Option<string>>)
      ensures r == if fails then Err(ErrDatabase) else Ok(Lookup(keys, key))
    {
      if fails {
        return Err(ErrDatabase);
      }
      return Ok(if key in keys then Some(keys[key]) else None);
    }

    method GetSandbox(id: string, fails: bool) returns (r: Result<Sandbox>)
      ensures r == FetchRow(Db(), id, fails)
    {
      if fails {
        return Err(ErrDatabase);
      }
      return if id in rows then Ok(Sandbox(id, rows[id])) else Err(ErrRowNotFound);
    }

    /** Every row once, in whatever order the engine yields them. */
    method GetSandboxes(fails: bool) returns (r: Result<seq<Sandbox>>)
      ensures fails <==> r.Err?
      ensures r.Ok? ==> DistinctRows(r.value) && RowMap(r.value) == rows
    {
      if fails {
        return Err(ErrDatabase);
      }
      var items: seq<Sandbox> := [];
      var left := rows;
      while left != map[]
        invariant left.Keys <= rows.Keys && forall id :: id in left ==> left[id] == rows[id]
        invariant DistinctRows(items)
        invariant RowMap(items) == rows - left.Keys
        decreases |left|
      {
        var id :| id in left;
        TakesOneMore(rows, left, items, id);
        FewerLeft(left, id);
        items := items + [Sandbox(id, left[id])];
        left := left - {id};
      }
      return Ok(items);
    }

    method GetSandboxEvents(id: string, fails: bool) returns (r: Result<seq<Event>>)
      ensures r == if fails then Err(ErrDatabase) else Ok(History(events, id))
      ensures r.Ok? && RowSound(Db(), id) ==> forall i, j :: 0 <= i < j < |r.value| ==>
                r.value[i].version < r.value[j].version
    {
      if fails {
        return Err(ErrDatabase);
      }
      var items: seq<Event> := [];
      for k := 0 to |events|
        invariant items == History(events[..k], id)
      {
        assert events[..k + 1] == events[..k] + [events[k]];
        HistoryOfAppend(events[..k], events[k], id);
        if events[k].sandboxID == id {
          items := items + [events[k]];
        }
      }
      assert events[..|events|] == events;
      return Ok(items);
    }

    /** mint is the id NewSandboxID would draw. */
    method CreateSandbox(key: string, spec: SpecFile, expiresAt: int, mint: string, f: CreateFaults)
        returns (r: Result<Sandbox>)
      modifies this
      ensures Tx(Db(), r) == CreateOrReplay(old(Db()), key, mint, spec, expiresAt, f)
    {
      if expiresAt == ZERO_TIME {
        return Err(ErrMissingExpiry);
      }
      var found := GetIdempotencyKey(key, f.lookup);
      if found.Err? {
        return Err(found.error);
      }
      if found.value.Some? {
        r := GetSandbox(found.value.value, f.fetch);
        return;
      }
      var fault := f.insert;
      if fault.AtBegin? {
        return Err(ErrDatabase);
      }
      var begun := Db();
      if fault.AtStatement? || mint in rows {
        Rollback(begun);
        return Err(ErrDatabase);
      }
      rows := rows[mint := Row(FIRST_VERSION, Pending, spec, expiresAt)];
      if fault.AtKey? || key in keys {
        Rollback(begun);
        return Err(ErrDatabase);
      }
      keys := keys[key := mint];
      var row := rows[mint];
      var error := InsertEvent(Event(mint, row.version, NO_STATE, row.state, "sandbox record created"), fault);
      if error.Some? {
        Rollback(begun);
        return Err(error.value);
      }
      if fault.AtCommit? {
        Rollback(begun);
        return Err(ErrDatabase);
      }
      return Ok(Sandbox(mint, row));
    }
  }
}
