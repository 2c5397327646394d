/** Lifetimes on the wire: whole seconds in an int64, nanoseconds in an int64
    (internal/api/api.go) and their admission (internal/control/control.go). */
module Wire {
  import opened Wrappers
  import opened Lifecycle
  import opened SpecResolve

  predicate Int64(x: int) {
    MIN_INT64 <= x <= MAX_INT64
  }

  // Division truncating toward zero.
  function TruncDiv(a: int, b: int): int
    requires b > 0
  {
    if a >= 0 then a / b else -((-a) / b)
  }

  function Min(a: int, b: int): int {
    if a <= b then a else b
  }

  function CeilSeconds(d: int): int {
    if d <= 0 then 0 else TruncDiv(Wrap64(Wrap64(d + SECOND) - 1), SECOND)
  }

  // NewCreateSandboxRequest
  function CreateSeconds(ttl: int): int {
    CeilSeconds(ttl)
  }

  // NewKeepaliveSandboxRequest
  function KeepaliveSeconds(ttl: int): int {
    if ttl < 0 then Min(TruncDiv(ttl, SECOND), -1) else CeilSeconds(ttl)
  }

  // The requests' TTL(): a 64-bit multiplication.
  function Ttl(seconds: int): int {
    Wrap64(seconds * SECOND)
  }

  // control.CreateSandbox and control.KeepaliveSandbox, up to the expiry they store.
  function AdmitCreate(ttl: int, now: int): Result<int> {
    match ResolveTTL(ttl)
    case Err(e) => Err(e)
    case Ok(t) => Ok(now + t)
  }

  function AdmitKeepalive(ttl: int, now: int): Result<int> {
    match ResolveTTL(Min(ttl, MAX_TTL))
    case Err(e) => Err(e)
    case Ok(t) => Ok(now + t)
  }

  /** Whatever int64 arrives, wrapped product included, an admitted request leases at
      most the platform cap and never nothing. */
  lemma AdmittedLeaseIsBounded(seconds: int, now: int)
    requires Int64(seconds)
    ensures AdmitCreate(Ttl(seconds), now).Ok? ==> now < AdmitCreate(Ttl(seconds), now).value <= now + MAX_TTL
    ensures AdmitKeepalive(Ttl(seconds), now).Ok? ==> now < AdmitKeepalive(Ttl(seconds), now).value <= now + MAX_TTL
    ensures AdmitKeepalive(Ttl(seconds), now).Ok? <==> Ttl(seconds) >= 0
  {
  }

  const MAX_WHOLE_SECONDS: int := 9_223_372_036

  const MAX_TTL_SECONDS: int := 86_400

  // The documented rules, on the seconds the caller sent.
  function CreateRule(seconds: int, now: int): Result<int> {
    if seconds == 0 then Ok(now + DEFAULT_TTL)
    else if 0 < seconds <= MAX_TTL_SECONDS then Ok(now + seconds * SECOND)
    else Err(ErrInvalidSpec)
  }

  function KeepaliveRule(seconds: int, now: int): Result<int> {
    if seconds == 0 then Ok(now + DEFAULT_TTL)
    else if seconds < 0 then Err(ErrInvalidSpec)
    else Ok(now + Min(seconds, MAX_TTL_SECONDS) * SECOND)
  }

  /** Where the multiplication cannot wrap, admission is the documented rule. */
  lemma AdmissionWithoutWrap(seconds: int, now: int)
    requires -MAX_WHOLE_SECONDS <= seconds <= MAX_WHOLE_SECONDS
    ensures AdmitCreate(Ttl(seconds), now) == CreateRule(seconds, now)
    ensures AdmitKeepalive(Ttl(seconds), now) == KeepaliveRule(seconds, now)
  {
  }

  /** On every int64: the rule is broken exactly when a request out of its range wraps to
      a lifetime that is admitted, or a long renewal wraps below the cap it should get. */
  lemma AdmissionFollowsRuleIff(seconds: int, now: int)
    requires Int64(seconds)
    ensures AdmitCreate(Ttl(seconds), now) == CreateRule(seconds, now)
       <==> 0 <= seconds <= MAX_TTL_SECONDS || Ttl(seconds) < 0 || Ttl(seconds) > MAX_TTL
    ensures AdmitKeepalive(Ttl(seconds), now) == KeepaliveRule(seconds, now)
       <==> if seconds < 0 then Ttl(seconds) < 0 else seconds <= MAX_TTL_SECONDS || Ttl(seconds) >= MAX_TTL
  {
  }

  /** Beyond that range the rule fails: 2^55 seconds, and as many below zero, wrap to nothing
      at all and are admitted with the default lifetime, on create and on keepalive alike. */
  lemma WrappedRequestIsAdmitted(now: int)
    ensures Int64(0x80_0000_0000_0000) && Int64(-0x80_0000_0000_0000)
    ensures AdmitCreate(Ttl(0x80_0000_0000_0000), now) == Ok(now + DEFAULT_TTL)
    ensures AdmitKeepalive(Ttl(0x80_0000_0000_0000), now) == Ok(now + DEFAULT_TTL)
    ensures AdmitCreate(Ttl(-0x80_0000_0000_0000), now) == Ok(now + DEFAULT_TTL)
    ensures AdmitKeepalive(Ttl(-0x80_0000_0000_0000), now) == Ok(now + DEFAULT_TTL)
  {
  }

  const LARGEST_ROUNDED: int := MAX_INT64 - 999_999_999

  /** The client-to-server trip of a positive duration never shortens it and adds less
      than a second, exactly when rounding up stays inside 64 bits. */
  lemma TripKeepsDuration(ttl: int)
    requires 0 < ttl <= MAX_INT64
    ensures ttl <= LARGEST_ROUNDED <==> ttl <= Ttl(CreateSeconds(ttl)) < ttl + SECOND
    ensures ttl <= LARGEST_ROUNDED ==> Int64(CreateSeconds(ttl)) && CreateSeconds(ttl) > 0
    ensures KeepaliveSeconds(ttl) == CreateSeconds(ttl)
  {
  }

  /** A whole number of seconds crosses the wire unchanged. */
  lemma WholeSecondsRoundTrip(seconds: int)
    requires 0 < seconds < MAX_WHOLE_SECONDS
    ensures CreateSeconds(seconds * SECOND) == seconds
    ensures Ttl(CreateSeconds(seconds * SECOND)) == seconds * SECOND
  {
  }

  /** A negative duration is kept negative for keepalive, which the server rejects, and
      becomes zero for create, which the server reads as the default. */
  lemma NegativeDurations(ttl: int, now: int)
    requires MIN_INT64 <= ttl < 0
    ensures KeepaliveSeconds(ttl) < 0 && Int64(KeepaliveSeconds(ttl))
    ensures AdmitKeepalive(Ttl(KeepaliveSeconds(ttl)), now) == Err(ErrInvalidSpec)
    ensures AdmitCreate(Ttl(CreateSeconds(ttl)), now) == Ok(now + DEFAULT_TTL)
  {
  }

  /** Zero stays zero on the wire, and takes fifteen minutes on the server. */
  lemma ZeroDurations(now: int)
    ensures CreateSeconds(0) == 0 && KeepaliveSeconds(0) == 0
    ensures AdmitCreate(Ttl(0), now) == AdmitKeepalive(Ttl(0), now) == Ok(now + 900_000_000_000)
  {
  }

  /** A negative keepalive crosses as its whole seconds, and as one second if it has none. */
  lemma NegativeSecondsExact(whole: int, rest: int)
    requires 0 <= whole && 0 <= rest < SECOND && 0 < whole * SECOND + rest <= -MIN_INT64
    ensures KeepaliveSeconds(-(whole * SECOND + rest)) == -(if whole == 0 then 1 else whole)
  {
    assert (whole * SECOND + rest) / SECOND == whole;
  }
}
