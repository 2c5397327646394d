/** What every runtime backend promises: a map from sandbox id to whether its container
    is started (internal/runtime/runtime.go, internal/runtime/ids.go). */
module RuntimeMap {
  import opened Wrappers
  import opened SpecResolve

  datatype CState = Up | Exited

  // ---- Sandbox ids: "sbx_" and a canonical, non-nil UUID ----

  predicate IsHex(c: char) {
    '0' <= c <= '9' || 'a' <= c <= 'f'
  }

  predicate IsDash(k: int) {
    k == 8 || k == 13 || k == 18 || k == 23
  }

  predicate CanonicalUuid(u: string) {
    && |u| == 36
    && (forall k :: 0 <= k < 36 ==> if IsDash(k) then u[k] == '-' else IsHex(u[k]))
    && (exists k :: 0 <= k < 36 && u[k] != '0' && u[k] != '-')
  }

  predicate ValidSandboxID(id: string) {
    |id| == 40 && id[..4] == "sbx_" && CanonicalUuid(id[4..])
  }

  // ---- Operations, with the failures a backend can have ----

  // How one call of the daemon ends: done; not done and reported so; or done and reported
  // as an error all the same, its reply lost.
  datatype CallFault = Works | Refused | Lost

  datatype CreateFault = CreateFault(pullFails: bool, create: CallFault, start: CallFault, remove: CallFault)

  datatype DestroyFault = DestroyFault(listFails: bool, remove: CallFault)

  const FINE := CreateFault(false, Works, Works, Works)
  const HEALTHY := DestroyFault(false, Works)

  datatype Rt = Rt(cs: map<string, CState>, result: Result<()>)

  // The container that a create with a valid id and spec leaves behind.
  function Leaves(f: CreateFault): Option<CState> {
    if f.pullFails || f.create.Refused? then None
    else if f.create.Lost? then Some(Exited)
    else if f.start.Works? then Some(Up)
    else if f.remove.Refused? then Some(if f.start.Lost? then Up else Exited)
    else None
  }

  // What it tells its caller.
  function Tells(f: CreateFault): Result<()> {
    if f.pullFails || !f.create.Works? then Err(ErrDaemon)
    else if f.start.Works? then Ok(())
    else Err(if f.remove.Works? then ErrDaemon else ErrLeaked(ErrDaemon))
  }

  /** Create under a caller-owned id.  A failed start is rolled back, and a failed
      rollback is reported as a leak; only a lost reply of the daemon's own create leaves a
      container that no error tells of. */
  function RtCreate(cs: map<string, CState>, id: string, spec: Spec, f: CreateFault): (r: Rt)
    ensures r.result.Ok? ==> r.cs == cs[id := Up]
    ensures r.result.Err? && !r.result.error.ErrLeaked? && !f.create.Lost? ==> r.cs == cs
    ensures r.result.Err? ==> r.cs == cs || r.cs == cs[id := Up] || r.cs == cs[id := Exited]
  {
    if !ValidSandboxID(id) then Rt(cs, Err(ErrInvalidSandboxID))
    else if Validate(spec).Err? then Rt(cs, Err(ErrLimits))
    else Rt(match Leaves(f) case None => cs case Some(s) => cs[id := s], Tells(f))
  }

  /** Destroy is idempotent: an absent container is success. */
  function RtDestroy(cs: map<string, CState>, id: string, f: DestroyFault): (r: Rt)
    ensures r.result.Ok? ==> r.cs == cs - {id}
    ensures r.result.Err? ==>
              r.cs == if f.remove.Lost? && r.result.error == ErrDaemon && !f.listFails then cs - {id} else cs
  {
    if !ValidSandboxID(id) then Rt(cs, Err(ErrInvalidSandboxID))
    else if f.listFails then Rt(cs, Err(ErrDaemon))
    else if id !in cs then Rt(cs, Ok(()))
    else
      match f.remove
      case Works => Rt(cs - {id}, Ok(()))
      case Refused => Rt(cs, Err(ErrDaemon))
      case Lost => Rt(cs - {id}, Err(ErrDaemon))
  }

  // ---- Listings of containers; a repeated id keeps its last entry ----

  // A listed container.
  datatype Info = Info(id: string, state: CState)

  function InfoMap(infos: seq<Info>): (m: map<string, CState>)
    ensures forall id :: id in m <==> exists k :: 0 <= k < |infos| && infos[k].id == id
  {
    if infos == [] then map[]
    else
      var last := infos[|infos| - 1];
      InfoMap(infos[..|infos| - 1])[last.id := last.state]
  }

  ghost predicate DistinctInfos(infos: seq<Info>) {
    forall i, j :: 0 <= i < j < |infos| ==> infos[i].id != infos[j].id
  }

  lemma {:induction false} InfoMapHolds(infos: seq<Info>, k: nat)
    requires DistinctInfos(infos) && k < |infos|
    ensures infos[k].id in InfoMap(infos) && InfoMap(infos)[infos[k].id] == infos[k].state
  {
    if k < |infos| - 1 {
      InfoMapHolds(infos[..|infos| - 1], k);
    }
  }

  // ---- Sandbox ids as they are printed ----

  function HexDigit(n: int): char
    requires 0 <= n < 16
  {
    if n < 10 then ('0' as int + n) as char else ('a' as int + n - 10) as char
  }

  predicate Nibbles(ns: seq<int>) {
    forall k :: 0 <= k < |ns| ==> 0 <= ns[k] < 16
  }

  function HexText(ns: seq<int>): (s: string)
    requires Nibbles(ns)
    ensures |s| == |ns|
  {
    seq(|ns|, k requires 0 <= k < |ns| => HexDigit(ns[k]))
  }

  // The text of a UUID: its 32 hexadecimal digits in groups of 8, 4, 4, 4 and 12.
  function UuidText(ns: seq<int>): (s: string)
    requires |ns| == 32 && Nibbles(ns)
    ensures |s| == 36
  {
    HexText(ns[..8]) + "-" + HexText(ns[8..12]) + "-" + HexText(ns[12..16]) + "-" + HexText(ns[16..20]) + "-" +
    HexText(ns[20..])
  }

  // The place of digit k in the text.
  function PlaceOf(k: int): int {
    if k < 8 then k else if k < 12 then k + 1 else if k < 16 then k + 2 else if k < 20 then k + 3 else k + 4
  }

  lemma UuidTextAt(ns: seq<int>)
    requires |ns| == 32 && Nibbles(ns)
    ensures forall k :: 0 <= k < 32 ==> UuidText(ns)[PlaceOf(k)] == HexDigit(ns[k])
    ensures UuidText(ns)[8] == UuidText(ns)[13] == UuidText(ns)[18] == UuidText(ns)[23] == '-'
  {
  }

  // Every place but a dash's is a digit's.
  function DigitAt(place: int): int {
    if place < 8 then place
    else if place < 13 then place - 1
    else if place < 18 then place - 2
    else if place < 23 then place - 3
    else place - 4
  }

  lemma PlacesMatch(place: int)
    requires 0 <= place < 36 && place != 8 && place != 13 && place != 18 && place != 23
    ensures 0 <= DigitAt(place) < 32 && PlaceOf(DigitAt(place)) == place
  {
  }

  function HexValue(c: char): int
    requires '0' <= c <= '9' || 'a' <= c <= 'f'
  {
    if c <= '9' then c as int - '0' as int else c as int - 'a' as int + 10
  }

  lemma PrintedUuidIsCanonical(ns: seq<int>)
    requires |ns| == 32 && Nibbles(ns)
    ensures CanonicalUuid(UuidText(ns)) <==> exists k :: 0 <= k < 32 && ns[k] != 0
  {
    var u := UuidText(ns);
    UuidTextAt(ns);
    forall place | 0 <= place < 36 && !IsDash(place)
      ensures IsHex(u[place])
    {
      PlacesMatch(place);
      assert u[PlaceOf(DigitAt(place))] == HexDigit(ns[DigitAt(place)]);
    }
    if k :| 0 <= k < 32 && ns[k] != 0 {
      assert u[PlaceOf(k)] == HexDigit(ns[k]) && u[PlaceOf(k)] != '0' && u[PlaceOf(k)] != '-';
    }
    if place :| 0 <= place < 36 && u[place] != '0' && u[place] != '-' {
      PlacesMatch(place);
      assert u[PlaceOf(DigitAt(place))] == HexDigit(ns[DigitAt(place)]);
      assert ns[DigitAt(place)] != 0;
    }
  }

  lemma CanonicalUuidIsPrinted(u: string) returns (ns: seq<int>)
    requires CanonicalUuid(u)
    ensures |ns| == 32 && Nibbles(ns) && u == UuidText(ns)
  {
    forall k | 0 <= k < 32
      ensures 0 <= PlaceOf(k) < 36 && IsHex(u[PlaceOf(k)])
    {
      assert !IsDash(PlaceOf(k));
    }
    ns := seq(32, k requires 0 <= k < 32 => HexValue(u[PlaceOf(k)]));
    UuidTextAt(ns);
    forall place | 0 <= place < 36
      ensures u[place] == UuidText(ns)[place]
    {
      if !IsDash(place) {
        PlacesMatch(place);
        assert UuidText(ns)[PlaceOf(DigitAt(place))] == HexDigit(ns[DigitAt(place)]);
      }
    }
  }

  ghost predicate PrintsAs(ns: seq<int>, id: string) {
    |ns| == 32 && Nibbles(ns) && (exists k :: 0 <= k < 32 && ns[k] != 0) && id == "sbx_" + UuidText(ns)
  }

  /** The valid ids are exactly the texts that are "sbx_" and a printed UUID other than the
      nil one: no upper case, no braces, no other spelling. */
  lemma ValidIDsArePrinted(id: string)
    ensures ValidSandboxID(id) <==> exists ns :: PrintsAs(ns, id)
  {
    if ValidSandboxID(id) {
      var ns := CanonicalUuidIsPrinted(id[4..]);
      PrintedUuidIsCanonical(ns);
      assert id == "sbx_" + UuidText(ns);
      assert PrintsAs(ns, id);
    }
    if ns :| PrintsAs(ns, id) {
      PrintedUuidIsCanonical(ns);
      assert id[..4] == "sbx_" && id[4..] == UuidText(ns);
    }
  }

  // ---- Answers ----

  /** Create's answer, by what goes wrong first; a leak is reported exactly when the
      container may have outlived its own clean-up. */
  lemma CreateAnswersBy(cs: map<string, CState>, id: string, spec: Spec, f: CreateFault)
    ensures var r := RtCreate(cs, id, spec, f).result;
            if !ValidSandboxID(id) then r == Err(ErrInvalidSandboxID)
            else if Validate(spec).Err? then r == Err(ErrLimits)
            else
              && (r.Ok? <==> !f.pullFails && f.create == Works && f.start == Works)
              && (r.Err? ==>
                    r.error == if !f.pullFails && f.create == Works && f.remove != Works then ErrLeaked(ErrDaemon)
                               else ErrDaemon)
  {
  }

  /** Destroy's answer: an absent container is success, a present one needs the removal. */
  lemma DestroyAnswersBy(cs: map<string, CState>, id: string, f: DestroyFault)
    ensures RtDestroy(cs, id, f).result ==
              if !ValidSandboxID(id) then Err(ErrInvalidSandboxID)
              else if f.listFails || (id in cs && f.remove != Works) then Err(ErrDaemon)
              else Ok(())
  {
  }
}
