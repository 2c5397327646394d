/** The Docker backend: labelled containers on a daemon, and the adapter that presents
    them as the abstract runtime map (internal/runtime/docker/docker.go, labels.go,
    translate.go). */
module Docker {
  import opened Wrappers
  import opened SpecResolve
  import opened RuntimeMap

  const LABEL_SANDBOX_ID := "quickspin.id"
  const LABEL_MANAGED := "quickspin.managed"
  const LABEL_MANAGED_VALUE := "true"

  type Labels = map<string, string>

  datatype Container = Container(cid: nat, labels: Labels, status: string)

  function ManagedLabels(id: string): Labels {
    map[LABEL_SANDBOX_ID := id, LABEL_MANAGED := LABEL_MANAGED_VALUE]
  }

  function ManagedMarkerLabels(): Labels {
    map[LABEL_MANAGED := LABEL_MANAGED_VALUE]
  }

  predicate IsManaged(labels: Labels) {
    LABEL_MANAGED in labels && labels[LABEL_MANAGED] == LABEL_MANAGED_VALUE
  }

  /** Is the container ours, and what is it called?  An unreadable id counts as no. */
  function ManagedSandboxID(labels: Labels): Option<string> {
    if !IsManaged(labels) then None
    else if LABEL_SANDBOX_ID in labels && ValidSandboxID(labels[LABEL_SANDBOX_ID]) then Some(labels[LABEL_SANDBOX_ID])
    else None
  }

  function StateFromStatus(status: string): CState {
    if status == "running" || status == "restarting" then Up else Exited
  }

  // ---- The abstraction ----

  // The containers the adapter can name, as List reports them.
  function Listing(cs: seq<Container>): seq<Info> {
    if cs == [] then []
    else
      var last := cs[|cs| - 1];
      Listing(cs[..|cs| - 1]) +
      (match ManagedSandboxID(last.labels)
       case None => []
       case Some(id) => [Info(id, StateFromStatus(last.status))])
  }

  // The containers it must never touch: unmanaged, or with an unreadable id.
  function Strangers(cs: seq<Container>): seq<Container> {
    if cs == [] then []
    else
      var last := cs[|cs| - 1];
      Strangers(cs[..|cs| - 1]) + (if ManagedSandboxID(last.labels).None? then [last] else [])
  }

  function AbsOf(cs: seq<Container>): map<string, CState> {
    InfoMap(Listing(cs))
  }

  ghost predicate UniqueCids(cs: seq<Container>) {
    forall i, j :: 0 <= i < j < |cs| ==> cs[i].cid != cs[j].cid
  }

  ghost predicate AtMostOne(cs: seq<Container>) {
    forall i, j :: 0 <= i < j < |cs| ==>
      ManagedSandboxID(cs[i].labels).Some? ==> ManagedSandboxID(cs[i].labels) != ManagedSandboxID(cs[j].labels)
  }

  ghost predicate AtMostOneOf(cs: seq<Container>, id: string) {
    forall i, j :: 0 <= i < j < |cs| ==>
      !(ManagedSandboxID(cs[i].labels) == Some(id) && ManagedSandboxID(cs[j].labels) == Some(id))
  }

  lemma AbsOfAppend(cs: seq<Container>, c: Container)
    ensures AbsOf(cs + [c]) == (match ManagedSandboxID(c.labels)
                                case None => AbsOf(cs)
                                case Some(id) => AbsOf(cs)[id := StateFromStatus(c.status)])
    ensures Strangers(cs + [c]) == Strangers(cs) + (if ManagedSandboxID(c.labels).None? then [c] else [])
  {
    assert (cs + [c])[..|cs|] == cs;
    var l := Listing(cs + [c]);
    match ManagedSandboxID(c.labels)
    case None => assert l == Listing(cs);
    case Some(id) =>
      assert l == Listing(cs) + [Info(id, StateFromStatus(c.status))];
      assert l[..|l| - 1] == Listing(cs);
  }

  lemma {:induction false} AbsOfHolds(cs: seq<Container>, id: string)
    ensures id in AbsOf(cs) <==> exists k :: 0 <= k < |cs| && ManagedSandboxID(cs[k].labels) == Some(id)
  {
    if cs != [] {
      var front, last := cs[..|cs| - 1], cs[|cs| - 1];
      assert cs == front + [last];
      AbsOfAppend(front, last);
      AbsOfHolds(front, id);
      if k :| 0 <= k < |cs| && ManagedSandboxID(cs[k].labels) == Some(id) {
        assert k < |front| ==> front[k] == cs[k];
      }
    }
  }

  lemma {:induction false} ListingIsDistinct(cs: seq<Container>)
    requires AtMostOne(cs)
    ensures DistinctInfos(Listing(cs))
  {
    if cs != [] {
      var front, last := cs[..|cs| - 1], cs[|cs| - 1];
      ListingIsDistinct(front);
      var l := Listing(front);
      if ManagedSandboxID(last.labels).Some? {
        var id := ManagedSandboxID(last.labels).value;
        AbsOfHolds(front, id);
        assert forall k :: 0 <= k < |front| ==> front[k] == cs[k];
        assert id !in InfoMap(l);
      }
    }
  }

  // ---- The daemon's own operations on its container list ----

  function Without(cs: seq<Container>, cid: nat): seq<Container> {
    if cs == [] then []
    else
      var last := cs[|cs| - 1];
      Without(cs[..|cs| - 1], cid) + (if last.cid == cid then [] else [last])
  }

  predicate Carries(labels: Labels, want: Labels) {
    forall k :: k in want ==> k in labels && labels[k] == want[k]
  }

  function Filtered(cs: seq<Container>, want: Labels): (r: seq<Container>)
    ensures forall c :: c in r <==> c in cs && Carries(c.labels, want)
  {
    if cs == [] then []
    else
      var last := cs[|cs| - 1];
      assert forall c :: c in cs <==> c in cs[..|cs| - 1] || c == last;
      Filtered(cs[..|cs| - 1], want) + (if Carries(last.labels, want) then [last] else [])
  }

  lemma MarkerCarried(labels: Labels)
    ensures Carries(labels, ManagedMarkerLabels()) <==> IsManaged(labels)
  {
  }

  lemma {:induction false} MarkerFilterKeepsListing(cs: seq<Container>)
    ensures Listing(Filtered(cs, ManagedMarkerLabels())) == Listing(cs)
  {
    if cs != [] {
      var front, last := cs[..|cs| - 1], cs[|cs| - 1];
      MarkerFilterKeepsListing(front);
      MarkerCarried(last.labels);
      var f := Filtered(front, ManagedMarkerLabels());
      assert (f + [last])[..|f|] == f;
      if !IsManaged(last.labels) {
        assert Filtered(cs, ManagedMarkerLabels()) == f;
        assert Listing(cs) == Listing(front);
      }
    }
  }

  lemma {:induction false} WithoutAbsent(cs: seq<Container>, cid: nat)
    requires forall k :: 0 <= k < |cs| ==> cs[k].cid != cid
    ensures Without(cs, cid) == cs
  {
    if cs != [] {
      WithoutAbsent(cs[..|cs| - 1], cid);
      assert cs == cs[..|cs| - 1] + [cs[|cs| - 1]];
    }
  }

  lemma {:induction false} WithoutHolds(cs: seq<Container>, cid: nat, c: Container)
    ensures c in Without(cs, cid) <==> c in cs && c.cid != cid
  {
    if cs != [] {
      var front, last := cs[..|cs| - 1], cs[|cs| - 1];
      WithoutHolds(front, cid, c);
      assert c in cs <==> c in front || c == last;
    }
  }

  lemma AppendKeepsUnique(front: seq<Container>, w: seq<Container>, last: Container)
    requires forall c :: c in w ==> c in front
    requires UniqueCids(front) ==> UniqueCids(w)
    requires AtMostOne(front) ==> AtMostOne(w)
    ensures UniqueCids(front + [last]) ==> UniqueCids(w) && UniqueCids(w + [last])
    ensures AtMostOne(front + [last]) ==> AtMostOne(w) && AtMostOne(w + [last])
  {
    var cs := front + [last];
    assert forall j :: 0 <= j < |front| ==> front[j] == cs[j];
    forall k | 0 <= k < |w|
      ensures UniqueCids(cs) ==> w[k].cid != last.cid
      ensures AtMostOne(cs) && ManagedSandboxID(w[k].labels).Some? ==>
                ManagedSandboxID(w[k].labels) != ManagedSandboxID(last.labels)
    {
      assert w[k] in front;
      var j :| 0 <= j < |front| && front[j] == w[k];
      assert cs[j] == w[k] && cs[|front|] == last;
    }
  }

  lemma {:induction false} WithoutIsSubset(cs: seq<Container>, cid: nat)
    ensures UniqueCids(cs) ==> UniqueCids(Without(cs, cid))
    ensures AtMostOne(cs) ==> AtMostOne(Without(cs, cid))
  {
    if cs != [] {
      var front, last := cs[..|cs| - 1], cs[|cs| - 1];
      WithoutIsSubset(front, cid);
      assert cs == front + [last];
      forall c
        ensures c in Without(front, cid) ==> c in front
      {
        WithoutHolds(front, cid, c);
      }
      AppendKeepsUnique(front, Without(front, cid), last);
    }
  }

  lemma LastGoes(front: seq<Container>, last: Container)
    requires UniqueCids(front + [last])
    ensures Without(front + [last], last.cid) == front
  {
    var cs := front + [last];
    assert forall k :: 0 <= k < |front| ==> front[k] == cs[k];
    assert cs[..|front|] == front && cs[|front|] == last;
    WithoutAbsent(front, last.cid);
  }

  lemma LastIsAdded(front: seq<Container>, last: Container, id: string)
    requires id !in AbsOf(front) && ManagedSandboxID(last.labels) == Some(id)
    ensures AbsOf(front) == AbsOf(front + [last]) - {id} && Strangers(front) == Strangers(front + [last])
  {
    AbsOfAppend(front, last);
  }

  // The last container goes: what is left is the rest, which has no such id.
  lemma RemoveLast(front: seq<Container>, last: Container, id: string)
    requires UniqueCids(front + [last]) && AtMostOne(front + [last]) && ManagedSandboxID(last.labels) == Some(id)
    ensures Without(front + [last], last.cid) == front
    ensures id !in AbsOf(front)
    ensures AbsOf(front) == AbsOf(front + [last]) - {id} && Strangers(front) == Strangers(front + [last])
  {
    var cs := front + [last];
    assert forall k :: 0 <= k < |front| ==> front[k] == cs[k];
    assert cs[|front|] == last;
    LastGoes(front, last);
    AbsOfHolds(front, id);
    LastIsAdded(front, last, id);
  }

  lemma FrontIsDistinct(front: seq<Container>, last: Container, k: nat)
    requires UniqueCids(front + [last]) && AtMostOne(front + [last]) && k < |front|
    requires ManagedSandboxID(front[k].labels).Some?
    ensures UniqueCids(front) && AtMostOne(front)
    ensures front[k].cid != last.cid && ManagedSandboxID(last.labels) != ManagedSandboxID(front[k].labels)
  {
    var cs := front + [last];
    assert forall j :: 0 <= j < |front| ==> front[j] == cs[j];
    assert cs[|front|] == last;
  }

  lemma UpdateCommutes(m: map<string, CState>, x: string, v: CState, id: string)
    requires x != id
    ensures m[x := v] - {id} == (m - {id})[x := v]
  {
  }

  lemma RemoveBefore(front: seq<Container>, w: seq<Container>, last: Container, id: string)
    requires AbsOf(w) == AbsOf(front) - {id} && Strangers(w) == Strangers(front)
    requires ManagedSandboxID(last.labels) != Some(id)
    ensures AbsOf(w + [last]) == AbsOf(front + [last]) - {id} && Strangers(w + [last]) == Strangers(front + [last])
  {
    AbsOfAppend(front, last);
    AbsOfAppend(w, last);
    match ManagedSandboxID(last.labels)
    case None =>
    case Some(x) => UpdateCommutes(AbsOf(front), x, StateFromStatus(last.status), id);
  }

  /** Removing the one container of an id removes that id from the map and leaves every
      stranger alone. */
  lemma {:induction false} RemoveManaged(cs: seq<Container>, k: nat, id: string)
    requires k < |cs| && UniqueCids(cs) && AtMostOne(cs) && ManagedSandboxID(cs[k].labels) == Some(id)
    ensures AbsOf(Without(cs, cs[k].cid)) == AbsOf(cs) - {id}
    ensures Strangers(Without(cs, cs[k].cid)) == Strangers(cs)
  {
    var front, last := cs[..|cs| - 1], cs[|cs| - 1];
    assert cs == front + [last];
    if k == |cs| - 1 {
      RemoveLast(front, last, id);
    } else {
      var c := cs[k];
      FrontIsDistinct(front, last, k);
      RemoveManaged(front, k, id);
      assert Without(cs, c.cid) == Without(front, c.cid) + [last];
      RemoveBefore(front, Without(front, c.cid), last, id);
    }
  }

  // One container of the id more, at the end.
  ghost predicate Extends(before: seq<Container>, after: seq<Container>, id: string, status: string) {
    |after| == |before| + 1 && after == before + [after[|before|]]
    && after[|before|].labels == ManagedLabels(id) && after[|before|].status == status
  }

  function StatusOf(s: CState): string {
    if s == Up then "running" else "created"
  }

  // The list a create leaves: at most one container more, of its id.
  ghost predicate Leaving(before: seq<Container>, after: seq<Container>, id: string, left: Option<CState>) {
    match left
    case None => after == before
    case Some(s) => Extends(before, after, id, StatusOf(s))
  }

  ghost predicate Started(before: seq<Container>, cid: nat, after: seq<Container>) {
    exists k :: 0 <= k < |before| && before[k].cid == cid && after == before[k := before[k].(status := "running")]
  }

  function AsStarted(c: Container, fault: CallFault): Container {
    if fault.Refused? then c else c.(status := "running")
  }

  lemma StartedLast(before: seq<Container>, c: Container, after: seq<Container>)
    requires UniqueCids(before + [c]) && Started(before + [c], c.cid, after)
    ensures after == before + [c.(status := "running")]
  {
    var cs := before + [c];
    assert forall k :: 0 <= k < |before| ==> cs[k].cid != cs[|before|].cid;
  }

  lemma StartOrNot(before: seq<Container>, c: Container, after: seq<Container>, fault: CallFault)
    requires UniqueCids(before + [c])
    requires if fault.Refused? then after == before + [c] else Started(before + [c], c.cid, after)
    ensures after == before + [AsStarted(c, fault)] && UniqueCids(after)
  {
    var cs := before + [c];
    if !fault.Refused? {
      StartedLast(before, c, after);
      assert forall k :: 0 <= k < |cs| ==> after[k].cid == cs[k].cid;
    }
  }

  class Daemon {
    var containers: seq<Container>
    var next: nat

    ghost predicate Valid()
      reads this
    {
      UniqueCids(containers) && forall c :: c in containers ==> c.cid < next
    }

    method ContainerList(want: Labels, fails: bool) returns (r: Result<seq<Container>>)
      ensures r == if fails then Err(ErrDaemon) else Ok(Filtered(containers, want))
    {
      return if fails then Err(ErrDaemon) else Ok(Filtered(containers, want));
    }

    method ContainerCreate(labels: Labels, fault: CallFault) returns (r: Result<nat>)
      requires Valid()
      modifies this
      ensures Valid()
      ensures fault.Works? <==> r.Ok?
      ensures r.Err? ==> r == Err(ErrDaemon)
      ensures if fault.Refused? then containers == old(containers)
              else containers == old(containers) + [Container(old(next), labels, "created")]
      ensures r.Ok? ==> r.value == old(next)
    {
      if fault.Refused? {
        return Err(ErrDaemon);
      }
      var cid := next;
      containers, next := containers + [Container(cid, labels, "created")], next + 1;
      return if fault.Works? then Ok(cid) else Err(ErrDaemon);
    }

    method ContainerStart(cid: nat, fault: CallFault) returns (r: Result<()>)
      requires Valid() && exists k :: 0 <= k < |containers| && containers[k].cid == cid
      modifies this`containers
      ensures Valid()
      ensures r == if fault.Works? then Ok(()) else Err(ErrDaemon)
      ensures if fault.Refused? then containers == old(containers) else Started(old(containers), cid, containers)
    {
      if fault.Refused? {
        return Err(ErrDaemon);
      }
      var k :| 0 <= k < |containers| && containers[k].cid == cid;
      containers := containers[k := containers[k].(status := "running")];
      return if fault.Works? then Ok(()) else Err(ErrDaemon);
    }

    // Force removal; an absent container is a not-found.
    method ContainerRemove(cid: nat, fault: CallFault) returns (r: Result<()>)
      requires Valid()
      modifies this`containers
      ensures Valid()
      ensures containers == if fault.Refused? then old(containers) else Without(old(containers), cid)
      ensures r == if !fault.Works? then Err(ErrDaemon)
                   else if (exists c :: c in old(containers) && c.cid == cid) then Ok(()) else Err(ErrContainerNotFound)
    {
      if fault.Refused? {
        return Err(ErrDaemon);
      }
      var present := exists c :: c in containers && c.cid == cid;
      WithoutIsSubset(containers, cid);
      forall c
        ensures c in Without(containers, cid) ==> c in containers
      {
        WithoutHolds(containers, cid, c);
      }
      containers := Without(containers, cid);
      return if fault.Lost? then Err(ErrDaemon) else if present then Ok(()) else Err(ErrContainerNotFound);
    }
  }

  lemma {:induction false} WithoutManaged(cs: seq<Container>, cid: nat)
    requires forall c :: c in cs && c.cid == cid ==> ManagedSandboxID(c.labels).Some?
    ensures Strangers(Without(cs, cid)) == Strangers(cs)
  {
    if cs != [] {
      var front, last := cs[..|cs| - 1], cs[|cs| - 1];
      WithoutManaged(front, cid);
      var w := Without(front, cid);
      assert last in cs && forall c :: c in front ==> c in cs;
      if last.cid == cid {
        assert Without(cs, cid) == w;
      } else {
        assert Without(cs, cid) == w + [last] && (w + [last])[..|w|] == w;
      }
    }
  }

  lemma StrangersStay(cs: seq<Container>, k: nat)
    requires k < |cs| && UniqueCids(cs) && ManagedSandboxID(cs[k].labels).Some?
    ensures Strangers(Without(cs, cs[k].cid)) == Strangers(cs)
  {
    forall c | c in cs && c.cid == cs[k].cid
      ensures ManagedSandboxID(c.labels).Some?
    {
      var i :| 0 <= i < |cs| && cs[i] == c;
    }
    WithoutManaged(cs, cs[k].cid);
  }

  lemma SecondStays(cs: seq<Container>, k: nat, i: nat, id: string)
    requires k < |cs| && i < |cs| && i != k && UniqueCids(cs)
    requires ManagedSandboxID(cs[k].labels) == ManagedSandboxID(cs[i].labels) == Some(id)
    ensures id in AbsOf(Without(cs, cs[k].cid)) && !AtMostOneOf(cs, id)
  {
    WithoutHolds(cs, cs[k].cid, cs[i]);
    assert cs[i].cid != cs[k].cid;
    AbsOfHolds(Without(cs, cs[k].cid), id);
  }

  lemma NoSecondLeft(cs: seq<Container>, k: nat, id: string)
    requires k < |cs| && forall i :: 0 <= i < |cs| && i != k ==> ManagedSandboxID(cs[i].labels) != Some(id)
    ensures id !in AbsOf(Without(cs, cs[k].cid)) && AtMostOneOf(cs, id)
  {
    var left := Without(cs, cs[k].cid);
    AbsOfHolds(left, id);
    forall j | 0 <= j < |left|
      ensures ManagedSandboxID(left[j].labels) != Some(id)
    {
      WithoutHolds(cs, cs[k].cid, left[j]);
      var i :| 0 <= i < |cs| && cs[i] == left[j];
    }
  }

  /** Removing a container of an id removes the id exactly when it had no other, and
      leaves every stranger alone. */
  lemma DestroysOne(cs: seq<Container>, k: nat, id: string)
    requires k < |cs| && UniqueCids(cs) && ManagedSandboxID(cs[k].labels) == Some(id)
    ensures id in AbsOf(cs)
    ensures id !in AbsOf(Without(cs, cs[k].cid)) <==> AtMostOneOf(cs, id)
    ensures Strangers(Without(cs, cs[k].cid)) == Strangers(cs)
  {
    AbsOfHolds(cs, id);
    StrangersStay(cs, k);
    if i :| 0 <= i < |cs| && i != k && ManagedSandboxID(cs[i].labels) == Some(id) {
      SecondStays(cs, k, i, id);
    } else {
      NoSecondLeft(cs, k, id);
    }
  }

  // The daemon's filter drops no container of the id.
  lemma FilterFinds(cs: seq<Container>, id: string, found: seq<Container>)
    requires forall c :: c in found <==> c in cs && Carries(c.labels, ManagedLabels(id))
    ensures id in AbsOf(cs) <==> exists j :: 0 <= j < |found| && ManagedSandboxID(found[j].labels) == Some(id)
  {
    AbsOfHolds(cs, id);
    if k :| 0 <= k < |cs| && ManagedSandboxID(cs[k].labels) == Some(id) {
      assert cs[k] in found;
    }
    if j :| 0 <= j < |found| && ManagedSandboxID(found[j].labels) == Some(id) {
      assert found[j] in cs;
    }
  }

  lemma IdRoundTrips(id: string)
    requires ValidSandboxID(id)
    ensures ManagedSandboxID(ManagedLabels(id)) == Some(id)
  {
  }

  lemma CreatedKeepsBound(before: seq<Container>, after: seq<Container>, id: string)
    requires AtMostOne(before) && ValidSandboxID(id) && id !in AbsOf(before)
    requires |after| == |before| + 1 && after == before + [after[|before|]]
    requires after[|before|].labels == ManagedLabels(id)
    ensures AtMostOne(after)
  {
    IdRoundTrips(id);
    AbsOfHolds(before, id);
  }

  /** One container more is the abstract create of its id; under an id that had none it
      keeps the bound of one. */
  lemma ExtensionIsCreate(before: seq<Container>, after: seq<Container>, id: string, s: CState)
    requires ValidSandboxID(id) && Extends(before, after, id, StatusOf(s))
    ensures Strangers(after) == Strangers(before)
    ensures AbsOf(after) == AbsOf(before)[id := s]
    ensures AtMostOne(before) && id !in AbsOf(before) ==> AtMostOne(after)
  {
    IdRoundTrips(id);
    AbsOfAppend(before, after[|before|]);
    if AtMostOne(before) && id !in AbsOf(before) {
      CreatedKeepsBound(before, after, id);
    }
  }

  class Runtime {
    const daemon: Daemon

    constructor (daemon: Daemon)
      ensures this.daemon == daemon
    {
      this.daemon := daemon;
    }

    ghost function Abs(): map<string, CState>
      reads daemon
    {
      AbsOf(daemon.containers)
    }

    ghost predicate Valid()
      reads daemon
    {
      daemon.Valid() && AtMostOne(daemon.containers)
    }

    /** Every managed sandbox, each once; corrupt id labels are skipped. */
    method List(fails: bool) returns (r: Result<seq<Info>>)
      ensures r == if fails then Err(ErrDaemon) else Ok(Listing(daemon.containers))
      ensures !fails ==> InfoMap(r.value) == Abs()
      ensures !fails && AtMostOne(daemon.containers) ==> DistinctInfos(r.value)
    {
      var result := daemon.ContainerList(ManagedMarkerLabels(), fails);
      if result.Err? {
        return Err(result.error);
      }
      var cs := result.value;
      var infos: seq<Info> := [];
      for k := 0 to |cs|
        invariant infos == Listing(cs[..k])
      {
        assert cs[..k + 1][..k] == cs[..k];
        var id := ManagedSandboxID(cs[k].labels);
        if id.Some? {
          infos := infos + [Info(id.value, StateFromStatus(cs[k].status))];
        }
      }
      assert cs[..|cs|] == cs;
      MarkerFilterKeepsListing(daemon.containers);
      if AtMostOne(daemon.containers) {
        ListingIsDistinct(daemon.containers);
      }
      return Ok(infos);
    }

    // An absent container counts as removed.
    method RemoveContainer(cid: nat, fault: CallFault) returns (r: Result<()>)
      requires daemon.Valid()
      modifies daemon`containers
      ensures daemon.Valid() && (old(AtMostOne(daemon.containers)) ==> AtMostOne(daemon.containers))
      ensures r == if fault.Works? then Ok(()) else Err(ErrDaemon)
      ensures daemon.containers
           == if fault.Refused? then old(daemon.containers) else Without(old(daemon.containers), cid)
    {
      WithoutIsSubset(daemon.containers, cid);
      r := daemon.ContainerRemove(cid, fault);
      if r.Err? && r.error == ErrContainerNotFound {
        r := Ok(());
      }
    }

    method CleanupFailed(cid: nat, cause: Error, fault: CallFault) returns (e: Error)
      requires daemon.Valid()
      modifies daemon`containers
      ensures daemon.Valid()
      ensures e == if fault.Works? then cause else ErrLeaked(cause)
      ensures daemon.containers
           == if fault.Refused? then old(daemon.containers) else Without(old(daemon.containers), cid)
    {
      var removed := RemoveContainer(cid, fault);
      return if removed.Err? then ErrLeaked(cause) else cause;
    }

    // The container is made; on failure it is removed again.
    method StartOrCleanUp(cid: nat, id: string, f: CreateFault, ghost before: seq<Container>, ghost c: Container)
      returns (r: Result<Info>)
      requires daemon.Valid() && daemon.containers == before + [c]
      requires c.cid == cid && c.labels == ManagedLabels(id) && c.status == "created"
      requires !f.pullFails && f.create.Works?
      modifies daemon`containers
      ensures daemon.Valid()
      ensures Leaving(before, daemon.containers, id, Leaves(f))
      ensures match Tells(f) case Ok(_) => r == Ok(Info(id, Up)) case Err(e) => r == Err(e)
    {
      assert (before + [c])[|before|] == c;
      var started := daemon.ContainerStart(cid, f.start);
      StartOrNot(before, c, daemon.containers, f.start);
      if started.Err? {
        LastGoes(before, AsStarted(c, f.start));
        var cause := CleanupFailed(cid, started.error, f.remove);
        return Err(cause);
      }
      return Ok(Info(id, Up));
    }

    // Create's daemon calls, the image being present.
    method CreateAndStart(id: string, f: CreateFault) returns (r: Result<Info>)
      requires daemon.Valid() && ValidSandboxID(id) && !f.pullFails
      modifies daemon
      ensures daemon.Valid()
      ensures Leaving(old(daemon.containers), daemon.containers, id, Leaves(f))
      ensures match Tells(f) case Ok(_) => r == Ok(Info(id, Up)) case Err(e) => r == Err(e)
    {
      ghost var before := daemon.containers;
      ghost var c := Container(daemon.next, ManagedLabels(id), "created");
      var created := daemon.ContainerCreate(ManagedLabels(id), f.create);
      if created.Err? {
        return Err(created.error);
      }
      r := StartOrCleanUp(created.value, id, f, before, c);
    }

    /** Create, then start; a failed start removes the container again, and a failed
        removal is reported as the leak it is.  An earlier container of the id is not
        looked for; where there is none, the bound of one is kept. */
    method Create(id: string, spec: Spec, f: CreateFault) returns (r: Result<Info>)
      requires daemon.Valid()
      modifies daemon
      ensures daemon.Valid()
      ensures Abs() == RtCreate(old(Abs()), id, spec, f).cs
      ensures match RtCreate(old(Abs()), id, spec, f).result
              case Ok(_) => r == Ok(Info(id, Up))
              case Err(e) => r == Err(e)
      ensures daemon.containers == old(daemon.containers)
           || exists s :: Extends(old(daemon.containers), daemon.containers, id, StatusOf(s))
      ensures old(AtMostOne(daemon.containers) && id !in Abs()) ==> Valid()
      ensures Strangers(daemon.containers) == old(Strangers(daemon.containers))
    {
      if !ValidSandboxID(id) {
        return Err(ErrInvalidSandboxID);
      }
      var valid := Validate(spec);
      if valid.Err? {
        return Err(valid.error);
      }
      if f.pullFails {
        return Err(ErrDaemon);
      }
      ghost var before := daemon.containers;
      r := CreateAndStart(id, f);
      if Leaves(f).Some? {
        ExtensionIsCreate(before, daemon.containers, id, Leaves(f).value);
      }
    }

    method GetContainerBySandboxID(id: string, fails: bool) returns (r: Result<Container>)
      ensures !ValidSandboxID(id) ==> r == Err(ErrInvalidSandboxID)
      ensures ValidSandboxID(id) && fails ==> r == Err(ErrDaemon)
      ensures ValidSandboxID(id) && !fails && id in Abs() ==>
                r.Ok? && r.value in daemon.containers && ManagedSandboxID(r.value.labels) == Some(id)
      ensures ValidSandboxID(id) && !fails && id !in Abs() ==> r == Err(ErrContainerNotFound)
    {
      if !ValidSandboxID(id) {
        return Err(ErrInvalidSandboxID);
      }
      var result := daemon.ContainerList(ManagedLabels(id), fails);
      if result.Err? {
        return Err(result.error);
      }
      var cs := result.value;
      FilterFinds(daemon.containers, id, cs);
      for k := 0 to |cs|
        invariant forall j :: 0 <= j < k ==> ManagedSandboxID(cs[j].labels) != Some(id)
      {
        if ManagedSandboxID(cs[k].labels) == Some(id) {
          assert cs[k] in cs;
          return Ok(cs[k]);
        }
      }
      return Err(ErrContainerNotFound);
    }

    /** Removes one container of the id.  That is all of them, and so the abstract
        destroy, exactly when there is at most one; strangers are never touched. */
    method Destroy(id: string, f: DestroyFault) returns (r: Result<()>)
      requires daemon.Valid()
      modifies daemon`containers
      ensures daemon.Valid()
      ensures old(AtMostOne(daemon.containers)) ==> Valid() && Rt(Abs(), r) == RtDestroy(old(Abs()), id, f)
      ensures r == RtDestroy(old(Abs()), id, f).result
      ensures r.Err? && !f.remove.Lost? ==> daemon.containers == old(daemon.containers)
      ensures r.Ok? ==> (id !in Abs() <==> AtMostOneOf(old(daemon.containers), id))
      ensures Strangers(daemon.containers) == old(Strangers(daemon.containers))
    {
      ghost var before := daemon.containers;
      var found := GetContainerBySandboxID(id, f.listFails);
      if found.Err? {
        AbsOfHolds(before, id);
        return if found.error == ErrContainerNotFound then Ok(()) else Err(found.error);
      }
      ghost var k :| 0 <= k < |before| && before[k] == found.value;
      r := RemoveContainer(found.value.cid, f.remove);
      DestroysOne(before, k, id);
      if AtMostOne(before) {
        RemoveManaged(before, k, id);
      }
    }
  }

  /** With two containers of one id, a destroy leaves the second. */
  lemma SecondContainerSurvives(id: string)
    requires ValidSandboxID(id)
    ensures var cs := [Container(0, ManagedLabels(id), "running"), Container(1, ManagedLabels(id), "running")];
            UniqueCids(cs) && !AtMostOneOf(cs, id) && id in AbsOf(Without(cs, cs[0].cid))
  {
    var cs := [Container(0, ManagedLabels(id), "running"), Container(1, ManagedLabels(id), "running")];
    IdRoundTrips(id);
    SecondStays(cs, 0, 1, id);
  }

  /** The labels, spelled out: what a container must carry to be managed under an id. */
  lemma LabelsSpelledOut(labels: Labels, id: string)
    ensures ManagedSandboxID(labels) == Some(id) <==>
              && ValidSandboxID(id)
              && "quickspin.managed" in labels && labels["quickspin.managed"] == "true"
              && "quickspin.id" in labels && labels["quickspin.id"] == id
    ensures ManagedLabels(id) == map["quickspin.id" := id, "quickspin.managed" := "true"]
    ensures ManagedMarkerLabels() == map["quickspin.managed" := "true"]
  {
  }

  predicate Shows(c: Container, id: string, started: bool) {
    ManagedSandboxID(c.labels) == Some(id) && (started <==> c.status == "running" || c.status == "restarting")
  }

  lemma ShownOneMore(front: seq<Container>, last: Container, id: string, started: bool)
    ensures (exists k :: 0 <= k < |front + [last]| && Shows((front + [last])[k], id, started)) <==>
              (exists k :: 0 <= k < |front| && Shows(front[k], id, started)) || Shows(last, id, started)
  {
    var cs := front + [last];
    assert cs[|front|] == last && forall k :: 0 <= k < |front| ==> cs[k] == front[k];
  }

  lemma LastIsListed(cs: seq<Container>, id: string)
    requires cs != []
    ensures var front, last := cs[..|cs| - 1], cs[|cs| - 1];
            && (Info(id, Up) in Listing(cs) <==> Info(id, Up) in Listing(front) || Shows(last, id, true))
            && (Info(id, Exited) in Listing(cs) <==> Info(id, Exited) in Listing(front) || Shows(last, id, false))
  {
  }

  /** A sandbox is listed as started exactly when a container of its id is running or
      restarting, and as stopped exactly when one has any other status, known or not. */
  lemma {:induction false} ListedByStatus(cs: seq<Container>, id: string)
    ensures Info(id, Up) in Listing(cs) <==> exists k :: 0 <= k < |cs| && Shows(cs[k], id, true)
    ensures Info(id, Exited) in Listing(cs) <==> exists k :: 0 <= k < |cs| && Shows(cs[k], id, false)
  {
    if cs != [] {
      var front, last := cs[..|cs| - 1], cs[|cs| - 1];
      ListedByStatus(front, id);
      ShownOneMore(front, last, id, true);
      ShownOneMore(front, last, id, false);
      assert cs == front + [last];
      LastIsListed(cs, id);
    }
  }
}
