/** The API operations that record intent (internal/control/control.go). */
module Control {
  import opened Wrappers
  import opened Lifecycle
  import opened SpecResolve
  import opened Tables
  import opened Wire
  import opened SqliteStore

  /** What CreateSandbox settles before it touches the store: a spec that resolves and
      the expiry the lifetime comes to. */
  function AdmitSandbox(spec: SpecFile, ttl: int, now: int): (r: Result<int>)
    ensures r.Ok? <==> Resolves(spec) && 0 <= ttl <= MAX_TTL
    ensures r.Ok? ==> now < r.value <= now + MAX_TTL
  {
    match ResolveValidated(spec)
    case Err(e) => Err(e)
    case Ok(_) => AdmitCreate(ttl, now)
  }

  // Only an invalid spec may be the caller's mistake.
  function Blame(e: Error): Error {
    if e == ErrInvalidSpec then e else ErrInternal(e)
  }

  function CreateTx(db: DB, key: string, spec: SpecFile, ttl: int, now: int, mint: string,
      f: CreateFaults): Tx<Sandbox>
  {
    match AdmitSandbox(spec, ttl, now)
    case Err(e) => Tx(db, Err(e))
    case Ok(expiresAt) =>
      var tx := CreateOrReplay(db, key, mint, spec, expiresAt, f);
      Tx(tx.db, match tx.result case Ok(sbx) => Ok(sbx) case Err(e) => Err(Blame(e)))
  }

  function KeepaliveTx(db: DB, id: string, ttl: int, now: int, f: Fault): Tx<Row> {
    match AdmitKeepalive(ttl, now)
    case Err(e) => Tx(db, Err(e))
    case Ok(expiresAt) => UpdateExpiry(db, id, expiresAt, f)
  }

  // DELETE is idempotent: nothing to stop is success.
  function DestroyVerdict(r: Result<Row>): Result<()> {
    match r
    case Ok(_) => Ok(())
    case Err(e) => if e == ErrRowNotFound || e == ErrInvalidStateTransition then Ok(()) else Err(e)
  }

  function DestroyTx(db: DB, id: string, loadFails: bool, f: Fault): Tx<()> {
    match FetchRow(db, id, loadFails)
    case Err(e) => Tx(db, if e == ErrRowNotFound then Ok(()) else Err(e))
    case Ok(sbx) =>
      var tx := UpdateState(db, id, Running, Stopping, "destroy requested", sbx.row.version, f);
      Tx(tx.db, DestroyVerdict(tx.result))
  }

  class Control {
    const store: Store

    constructor (store: Store)
      ensures this.store == store
    {
      this.store := store;
    }

    method CreateSandbox(key: string, spec: SpecFile, ttl: int, now: int, mint: string, f: CreateFaults)
        returns (r: Result<Sandbox>)
      modifies store
      ensures Tx(store.Db(), r) == CreateTx(old(store.Db()), key, spec, ttl, now, mint, f)
    {
      var resolved := ResolveValidated(spec);
      if resolved.Err? {
        return Err(resolved.error);
      }
      var lifetime := ResolveTTL(ttl);
      if lifetime.Err? {
        return Err(lifetime.error);
      }
      r := store.CreateSandbox(key, spec, now + lifetime.value, mint, f);
      if r.Err? {
        r := Err(Blame(r.error));
      }
    }

    method KeepaliveSandbox(id: string, ttl: int, now: int, f: Fault) returns (r: Result<Row>)
      modifies store
      ensures Tx(store.Db(), r) == KeepaliveTx(old(store.Db()), id, ttl, now, f)
    {
      var clamped := Min(ttl, MAX_TTL);
      var lifetime := ResolveTTL(clamped);
      if lifetime.Err? {
        return Err(lifetime.error);
      }
      var expiresAt := now + lifetime.value;
      r := store.UpdateSandboxExpiry(id, expiresAt, f);
    }

    method DestroySandbox(id: string, loadFails: bool, f: Fault) returns (r: Result<()>)
      modifies store
      ensures Tx(store.Db(), r) == DestroyTx(old(store.Db()), id, loadFails, f)
    {
      var found := store.GetSandbox(id, loadFails);
      if found.Err? {
        return if found.error == ErrRowNotFound then Ok(()) else Err(found.error);
      }
      var moved := store.UpdateSandboxState(id, Running, Stopping, "destroy requested", found.value.row.version, f);
      if moved.Err? {
        if moved.error == ErrRowNotFound || moved.error == ErrInvalidStateTransition {
          return Ok(());
        }
        return Err(moved.error);
      }
      return Ok(());
    }
  }

  /** An uninterrupted destroy: on success the sandbox is absent, settled, or pending
      still, and it touches nothing but the row it stops. */
  lemma DestroySettles(db: DB, id: string, loadFails: bool, f: Fault)
    requires RowSound(db, id)
    ensures var tx := DestroyTx(db, id, loadFails, f);
            && (tx.result.Ok? && id in db.rows && db.rows[id].state != Pending ==>
                  id in tx.db.rows && Settled(tx.db.rows[id].state))
            && (tx.result.Ok? && id in db.rows && db.rows[id].state == Pending ==> tx.db == db)
            && (tx.result.Ok? && id !in db.rows ==> tx.db == db)
            && (tx.result.Err? ==> tx.db == db)
  {
  }
}
