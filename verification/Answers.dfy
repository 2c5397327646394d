/** What the store and the API operations answer their callers: the record after success,
    and for each failure its one sentinel (internal/store/sqlite/sqlite.go,
    internal/control/control.go). */
module Answers {
  import opened Wrappers
  import opened Lifecycle
  import opened SpecResolve
  import opened Tables
  import opened Wire
  import opened Control

  // The engine fails before the guarded update is answered.
  predicate FailsEarly(f: Fault) {
    f == AtBegin || f == AtStatement
  }

  predicate Observed(db: DB, id: string, state: TaskState, version: int) {
    id in db.rows && db.rows[id].state == state && db.rows[id].version == version
  }

  // The sentinel of the first thing wrong with a transition.
  function RefusalOf(db: DB, id: string, from: TaskState, to: TaskState, reason: string, version: int,
      f: Fault): Error
  {
    if from.Other? || to.Other? then ErrInvalidState
    else if !Legal(from, to) then ErrInvalidStateTransition
    else if FailsEarly(f) then ErrDatabase
    else if !Observed(db, id, from, version) then
      if f == AtReread then ErrDatabase else if id in db.rows then ErrInvalidStateTransition else ErrRowNotFound
    else if reason == "" then ErrInvalidEvent
    else ErrDatabase
  }

  lemma AppendAnswers(db: DB, id: string, from: TaskState, to: TaskState, reason: string, f: Fault)
    requires RowSound(db, id) && id in db.rows && !to.Other?
    ensures var e := Event(id, db.rows[id].version + 1, from, to, reason);
            AppendEvent(db.events, e, f) ==
              if reason == "" then Err(ErrInvalidEvent) else if f == AtEvent then Err(ErrDatabase)
              else Ok(db.events + [e])
  {
    NextVersionIsFree(db, id);
  }

  // Once the guard has matched, the event and the commit decide.
  lemma MatchedAnswers(db: DB, id: string, from: TaskState, to: TaskState, reason: string, f: Fault)
    requires RowSound(db, id) && id in db.rows && db.rows[id].state == from && Legal(from, to) && !FailsEarly(f)
    ensures var version := db.rows[id].version;
            var tx := UpdateState(db, id, from, to, reason, version, f);
            var row := db.rows[id].(state := to, version := version + 1);
            if reason == "" then tx.result == Err(ErrInvalidEvent)
            else if f == AtEvent || f == AtCommit then tx.result == Err(ErrDatabase)
            else tx.result == Ok(row) && tx.db.rows == db.rows[id := row]
  {
    AppendAnswers(db, id, from, to, reason, f);
  }

  lemma UnmatchedAnswers(db: DB, id: string, from: TaskState, to: TaskState, reason: string, version: int, f: Fault)
    requires !Legal(from, to) || FailsEarly(f) || !Observed(db, id, from, version)
    ensures UpdateState(db, id, from, to, reason, version, f)
         == Tx(db, Err(RefusalOf(db, id, from, to, reason, version, f)))
  {
  }

  /** A transition that commits answers with the row as the table now holds it; one that does
      not answers with the sentinel of the first thing wrong. */
  lemma TransitionAnswers(db: DB, id: string, from: TaskState, to: TaskState, reason: string, version: int, f: Fault)
    requires RowSound(db, id)
    ensures var tx := UpdateState(db, id, from, to, reason, version, f);
            match tx.result
            case Ok(row) =>
              && id in tx.db.rows && tx.db.rows[id] == row
              && row.state == to && row.version == version + 1
              && row.spec == db.rows[id].spec && row.expiresAt == db.rows[id].expiresAt
            case Err(e) => tx.db == db && e == RefusalOf(db, id, from, to, reason, version, f)
  {
    if Legal(from, to) && !FailsEarly(f) && Observed(db, id, from, version) {
      MatchedAnswers(db, id, from, to, reason, f);
    } else {
      UnmatchedAnswers(db, id, from, to, reason, version, f);
    }
  }

  /** A renewal that commits answers with the renewed row. */
  lemma RenewalAnswers(db: DB, id: string, expiresAt: int, f: Fault)
    ensures var tx := UpdateExpiry(db, id, expiresAt, f);
            match tx.result
            case Ok(row) =>
              && id in tx.db.rows && tx.db.rows[id] == row
              && row.expiresAt == expiresAt
              && id in db.rows && row.state == db.rows[id].state && row.version == db.rows[id].version
              && row.spec == db.rows[id].spec
            case Err(e) =>
              if expiresAt == 0 then e == ErrMissingExpiry
              else if FailsEarly(f) then e == ErrDatabase
              else if id !in db.rows then e == if f == AtReread then ErrDatabase else ErrRowNotFound
              else if Settled(db.rows[id].state) || db.rows[id].state.Other? then
                e == if f == AtReread then ErrDatabase else ErrInvalidStateTransition
              else e == ErrDatabase && f == AtCommit
  {
  }

  /** A create answers with the pending record it made, or with the record its key already
      named; without a record, with the engine's failure, or a missing expiry, or a key whose
      sandbox is gone. */
  lemma CreateAnswers(db: DB, key: string, id: string, spec: SpecFile, expiresAt: int, f: CreateFaults)
    requires RowSound(db, id) && id != ""
    ensures var tx := CreateOrReplay(db, key, id, spec, expiresAt, f);
            match tx.result
            case Ok(sbx) =>
              && sbx.id in tx.db.rows && tx.db.rows[sbx.id] == sbx.row
              && key in tx.db.keys && tx.db.keys[key] == sbx.id
              && if key in db.keys then tx.db == db
                 else sbx.id == id && sbx.row == Row(1, Pending, spec, expiresAt)
            case Err(e) =>
              && tx.db == db
              && if expiresAt == 0 then e == ErrMissingExpiry
                 else if f.lookup then e == ErrDatabase
                 else if key in db.keys then
                   e == if f.fetch then ErrDatabase else ErrRowNotFound
                 else e == ErrDatabase && (id in db.rows || (f.insert != NoFault && f.insert != AtReread))
  {
    NextVersionIsFree(db, id);
  }

  /** A second event under one version of a sandbox is refused, whatever else it says. */
  lemma DuplicateEventIsRefused(before: seq<Event>, e: Event, after: seq<Event>, again: Event, f: Fault)
    requires e.sandboxID == again.sandboxID && e.version == again.version
    ensures AppendEvent(before + [e] + after, again, f).Err?
  {
    var events := before + [e] + after;
    assert events[|before|] == e;
  }

  /** A create through the API: the caller's mistakes come back as they are, everything the
      store reports as the service's own fault. */
  lemma CreateBlames(db: DB, key: string, spec: SpecFile, ttl: int, now: int, mint: string, f: CreateFaults)
    ensures var tx := CreateTx(db, key, spec, ttl, now, mint, f);
            match ResolveValidated(spec)
            case Err(e) => tx == Tx(db, Err(e))
            case Ok(_) =>
              if ttl < 0 || ttl > 86_400 * SECOND then tx == Tx(db, Err(ErrInvalidSpec))
              else
                var expiresAt := now + (if ttl == 0 then 900 * SECOND else ttl);
                var store := CreateOrReplay(db, key, mint, spec, expiresAt, f);
                && tx.db == store.db
                && match store.result
                   case Ok(sbx) => tx.result == Ok(sbx)
                   case Err(e) => tx.result == Err(ErrInternal(e))
  {
  }

  /** A keepalive answers with the row renewed to the instant asked for, the clamp applied. */
  lemma KeepaliveAnswers(db: DB, id: string, ttl: int, now: int, f: Fault)
    ensures var tx := KeepaliveTx(db, id, ttl, now, f);
            match tx.result
            case Ok(row) =>
              && 0 <= ttl && id in tx.db.rows && tx.db.rows[id] == row
              && row.expiresAt == now + (if ttl == 0 then 900 * SECOND else Min(ttl, 86_400 * SECOND))
            case Err(e) => tx.db == db && (ttl < 0 ==> e == ErrInvalidSpec)
  {
  }

  lemma StopAnswers(db: DB, id: string, f: Fault)
    requires RowSound(db, id) && id in db.rows
    ensures var row := db.rows[id];
            var tx := UpdateState(db, id, Running, Stopping, "destroy requested", row.version, f);
            if FailsEarly(f) then tx == Tx(db, Err(ErrDatabase))
            else if row.state != Running then
              tx == Tx(db, Err(if f == AtReread then ErrDatabase else ErrInvalidStateTransition))
            else if f == AtEvent || f == AtCommit then tx == Tx(db, Err(ErrDatabase))
            else
              && tx.result.Ok? && tx.db.rows == db.rows[id := row.(state := Stopping, version := row.version + 1)]
              && tx.db.events == db.events + [Event(id, row.version + 1, Running, Stopping, "destroy requested")]
  {
    TransitionCommits(db, id, Running, Stopping, "destroy requested", db.rows[id].version, f);
    TransitionAnswers(db, id, Running, Stopping, "destroy requested", db.rows[id].version, f);
  }

  /** A destroy fails exactly when the engine fails it; nothing to stop is success. */
  lemma DestroyFailsIff(db: DB, id: string, loadFails: bool, f: Fault)
    requires RowSound(db, id)
    ensures var tx := DestroyTx(db, id, loadFails, f);
            && (tx.result.Err? <==>
                || loadFails
                || (id in db.rows &&
                    (|| FailsEarly(f)
                     || (db.rows[id].state != Running && f == AtReread)
                     || (db.rows[id].state == Running && (f == AtEvent || f == AtCommit)))))
            && (tx.result.Err? ==> tx == Tx(db, Err(ErrDatabase)))
            && (tx.result.Ok? && id in db.rows && db.rows[id].state == Running ==>
                  && tx.db.rows == db.rows[id := db.rows[id].(state := Stopping, version := db.rows[id].version + 1)]
                  && tx.db.events ==
                     db.events + [Event(id, db.rows[id].version + 1, Running, Stopping, "destroy requested")])
  {
    if id in db.rows && !loadFails {
      StopAnswers(db, id, f);
    }
  }
}
