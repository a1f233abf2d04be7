/** The startup sweep that gives every wanted remote binding its Janus mountpoint
    (app/services/binding_provision.py). Janus is the map of its live mountpoints. */
module JanusSweep {
  import opened Options

  const REMOTE_MP_MIN := 2000

  datatype StreamMode = LocalV4l2 | RemoteProducer

  datatype Binding = Binding(bid: string, mode: StreamMode, desiredUp: bool, mountpointId: int, rtpPort: int, iface: string)

  /** A live mountpoint's port as Janus lists it; it may list none. */
  type Live = map<int, Option<int>>

  /** What may go wrong for one binding: Janus refuses, acts but its reply is lost, cannot list (or no
      longer lists the id), lists a port that is no number, or the call raises something else. */
  datatype Fault = NoFault | Refused | ReplyLost | ListFails | BadListing | Raises

  type Faults = map<string, Fault>

  const FAULT_FREE: Faults := map[]

  function FaultOf(faults: Faults, b: Binding): Fault {
    if b.bid in faults then faults[b.bid] else NoFault
  }

  datatype Status = CREATED | EXISTS | CONFLICT | FAILED

  datatype Reply = Ok | AlreadyExists | OtherError | Exception

  datatype Summary = Summary(created: nat, existing: nat, failed: nat, skipped: nat, outcomes: map<string, Status>)
  {
    predicate Ok() {
      failed == 0
    }
  }

  predicate Remote(b: Binding) {
    b.mode == RemoteProducer
  }

  predicate Eligible(b: Binding) {
    Remote(b) && b.desiredUp && b.mountpointId >= REMOTE_MP_MIN
  }

  /** The verdict on one binding, from what is live under its id. */
  function Verdict(entry: Option<Option<int>>, b: Binding, f: Fault): Status {
    if f in {Refused, ReplyLost, Raises} then FAILED
    else if entry.None? then CREATED
    else if f == BadListing then FAILED
    else if f != ListFails && entry.value.Some? && entry.value.value != b.rtpPort then CONFLICT
    else EXISTS
  }

  function Entry(live: Live, id: int): Option<Option<int>> {
    if id in live then Some(live[id]) else None
  }

  function Provided(live: Live, b: Binding, f: Fault): Live {
    if b.mountpointId in live || f in {Refused, Raises} then live else live[b.mountpointId := Some(b.rtpPort)]
  }

  datatype Sweep = Sweep(live: Live, summary: Summary)

  function Counted(s: Summary, b: Binding, st: Status): Summary {
    Summary(
      s.created + if st == CREATED then 1 else 0,
      s.existing + if st == EXISTS then 1 else 0,
      s.failed + if st in {CONFLICT, FAILED} then 1 else 0,
      s.skipped,
      s.outcomes[b.bid := st])
  }

  function SweepOne(s: Sweep, b: Binding, f: Fault): Sweep {
    if !Remote(b) then s
    else if !Eligible(b) then s.(summary := s.summary.(skipped := s.summary.skipped + 1))
    else Sweep(Provided(s.live, b, f), Counted(s.summary, b, Verdict(Entry(s.live, b.mountpointId), b, f)))
  }

  function SweepAll(live: Live, bindings: seq<Binding>, faults: Faults): Sweep {
    if bindings == [] then Sweep(live, Summary(0, 0, 0, 0, map[]))
    else
      var b := bindings[|bindings| - 1];
      SweepOne(SweepAll(live, bindings[..|bindings| - 1], faults), b, FaultOf(faults, b))
  }

  class Gateway {
    var live: Live

    constructor (initial: Live)
      ensures live == initial
    {
      live := initial;
    }

    /** Janus's create, as its caller sees it. */
    method CreateMountpoint(b: Binding, f: Fault) returns (reply: Reply)
      modifies this
      ensures live == Provided(old(live), b, f)
      ensures reply == (match f
        case Refused => OtherError
        case ReplyLost => OtherError
        case Raises => Exception
        case _ => if b.mountpointId in old(live) then AlreadyExists else Ok)
    {
      if f == Raises {
        return Exception;
      }
      if f == Refused {
        return OtherError;
      }
      var taken := b.mountpointId in live;
      if !taken {
        live := live[b.mountpointId := Some(b.rtpPort)];
      }
      reply := if f == ReplyLost then OtherError else if taken then AlreadyExists else Ok;
    }

    /** None stands for an exception. */
    method ReconcileExisting(b: Binding, f: Fault) returns (st: Option<Status>)
      requires b.mountpointId in live && f in {NoFault, ListFails, BadListing}
      ensures st == if f == BadListing then None else Some(Verdict(Entry(live, b.mountpointId), b, f))
    {
      if f == ListFails {
        return Some(EXISTS);
      }
      if f == BadListing {
        return None;
      }
      var port := live[b.mountpointId];
      if port.Some? && port.value != b.rtpPort {
        return Some(CONFLICT);
      }
      st := Some(EXISTS);
    }

    /** None stands for an exception that reaches the caller. */
    method EnsureJanus(b: Binding, f: Fault) returns (st: Option<Status>)
      modifies this
      ensures live == Provided(old(live), b, f)
      ensures st ==
        if f == Raises || (f == BadListing && b.mountpointId in old(live)) then None
        else Some(Verdict(Entry(old(live), b.mountpointId), b, f))
    {
      var reply := CreateMountpoint(b, f);
      match reply {
        case Ok => st := Some(CREATED);
        case AlreadyExists => st := ReconcileExisting(b, f);
        case OtherError => st := Some(FAILED);
        case Exception => st := None;
      }
    }

    method ReconcileJanus(bindings: seq<Binding>, faults: Faults) returns (s: Summary)
      modifies this
      ensures Sweep(live, s) == SweepAll(old(live), bindings, faults)
    {
      var created, existing, failed, skipped := 0, 0, 0, 0;
      var outcomes: map<string, Status> := map[];
      for n := 0 to |bindings|
        invariant Sweep(live, Summary(created, existing, failed, skipped, outcomes)) == SweepAll(old(live), bindings[..n], faults)
      {
        assert bindings[..n + 1][..n] == bindings[..n];
        var b := bindings[n];
        if b.mode != RemoteProducer {
          continue;
        }
        if !b.desiredUp {
          skipped := skipped + 1;
          continue;
        }
        if b.mountpointId < REMOTE_MP_MIN {
          skipped := skipped + 1;
          continue;
        }
        var out := EnsureJanus(b, FaultOf(faults, b));
        var st := if out.Some? then out.value else FAILED;
        outcomes := outcomes[b.bid := st];
        if st == CREATED {
          created := created + 1;
        } else if st == EXISTS {
          existing := existing + 1;
        } else {
          failed := failed + 1;
        }
      }
      assert bindings[..|bindings|] == bindings;
      s := Summary(created, existing, failed, skipped, outcomes);
    }
  }
}

module JanusSweepLaws {
  import opened Options
  import opened JanusSweep

  predicate DistinctIds(bs: seq<Binding>) {
    forall i, j :: 0 <= i < j < |bs| ==> bs[i].bid != bs[j].bid
  }

  /** Wanted mountpoint ids are not shared, as the allocator keeps them. */
  predicate DistinctMountpoints(bs: seq<Binding>) {
    forall i, j :: 0 <= i < j < |bs| && Wanted(bs[i]) && Wanted(bs[j]) ==> bs[i].mountpointId != bs[j].mountpointId
  }

  /** The operator wants this remote binding up, under an id of the remote range. */
  predicate Wanted(b: Binding) {
    b.mode == RemoteProducer && b.desiredUp && b.mountpointId >= 2000
  }

  // ---------- what a sweep may touch ----------

  predicate Wants(bs: seq<Binding>, id: int) {
    exists i :: 0 <= i < |bs| && Wanted(bs[i]) && bs[i].mountpointId == id
  }

  /** Whatever fails, a sweep removes and alters nothing, and creates only under the ids of wanted
      remote bindings: never below the remote range. */
  lemma {:induction false} SweepTouches(live: Live, bs: seq<Binding>, faults: Faults, id: int)
    ensures var after := SweepAll(live, bs, faults).live;
      && (id in live ==> id in after && after[id] == live[id])
      && (id in after && id !in live ==> Wants(bs, id) && id >= 2000)
    decreases bs
  {
    if bs != [] {
      var n := |bs| - 1;
      SweepTouches(live, bs[..n], faults, id);
      if Wants(bs[..n], id) {
        var i :| 0 <= i < n && Wanted(bs[..n][i]) && bs[..n][i].mountpointId == id;
        assert bs[i] == bs[..n][i];
      }
    }
  }

  /** A mountpoint that a sweep creates is on the port of a binding that wants it. */
  lemma {:induction false} CreatedOnItsPort(live: Live, bs: seq<Binding>, faults: Faults, id: int)
    ensures var after := SweepAll(live, bs, faults).live;
      id in after && id !in live ==>
        exists i :: 0 <= i < |bs| && Wanted(bs[i]) && bs[i].mountpointId == id && after[id] == Some(bs[i].rtpPort)
    decreases bs
  {
    if bs != [] {
      var n := |bs| - 1;
      var before, after := SweepAll(live, bs[..n], faults).live, SweepAll(live, bs, faults).live;
      CreatedOnItsPort(live, bs[..n], faults, id);
      if id in before && id !in live {
        var i :| 0 <= i < n && Wanted(bs[..n][i]) && bs[..n][i].mountpointId == id && before[id] == Some(bs[..n][i].rtpPort);
        assert bs[i] == bs[..n][i] && after[id] == before[id];
      } else if id in after && id !in live {
        assert Wanted(bs[n]) && bs[n].mountpointId == id && after[id] == Some(bs[n].rtpPort);
      }
    }
  }

  // ---------- counts ----------

  function RemoteCount(bs: seq<Binding>): nat {
    if bs == [] then 0 else RemoteCount(bs[..|bs| - 1]) + if bs[|bs| - 1].mode == RemoteProducer then 1 else 0
  }

  /** Remote bindings that the operator stopped, or under an id of the local range. */
  function StoppedCount(bs: seq<Binding>): nat {
    if bs == [] then 0
    else
      var b := bs[|bs| - 1];
      StoppedCount(bs[..|bs| - 1]) + if b.mode == RemoteProducer && (!b.desiredUp || b.mountpointId < 2000) then 1 else 0
  }

  /** Those, and only those, are counted as skipped. */
  lemma {:induction false} SkippedAreStopped(live: Live, bs: seq<Binding>, faults: Faults)
    ensures SweepAll(live, bs, faults).summary.skipped == StoppedCount(bs)
    decreases bs
  {
    if bs != [] { SkippedAreStopped(live, bs[..|bs| - 1], faults); }
  }

  /** A binding has an outcome if and only if it is wanted. */
  lemma HasOutcomeIff(live: Live, bs: seq<Binding>, faults: Faults, i: nat)
    requires DistinctIds(bs) && i < |bs|
    ensures bs[i].bid in SweepAll(live, bs, faults).summary.outcomes <==> Wanted(bs[i])
  {
    OutcomeKeys(live, bs, faults, bs[i].bid);
    if bs[i].bid in SweepAll(live, bs, faults).summary.outcomes {
      var j :| 0 <= j < |bs| && Wanted(bs[j]) && bs[j].bid == bs[i].bid;
      assert j == i;
    }
    if Wanted(bs[i]) { WantedHasOutcome(live, bs, faults, i); }
  }

  lemma {:induction false} WantedHasOutcome(live: Live, bs: seq<Binding>, faults: Faults, i: nat)
    requires i < |bs| && Wanted(bs[i])
    ensures bs[i].bid in SweepAll(live, bs, faults).summary.outcomes
    decreases bs
  {
    var n := |bs| - 1;
    if i < n {
      assert bs[..n][i] == bs[i];
      WantedHasOutcome(live, bs[..n], faults, i);
    }
  }

  function WithStatus(outcomes: map<string, Status>, sts: set<Status>): set<string> {
    set bid | bid in outcomes && outcomes[bid] in sts
  }

  lemma {:induction false} OutcomeKeys(live: Live, bs: seq<Binding>, faults: Faults, bid: string)
    ensures bid in SweepAll(live, bs, faults).summary.outcomes ==> exists i :: 0 <= i < |bs| && Wanted(bs[i]) && bs[i].bid == bid
    decreases bs
  {
    if bs != [] {
      var n := |bs| - 1;
      OutcomeKeys(live, bs[..n], faults, bid);
      if bid in SweepAll(live, bs[..n], faults).summary.outcomes {
        var i :| 0 <= i < n && Wanted(bs[..n][i]) && bs[..n][i].bid == bid;
        assert bs[i] == bs[..n][i];
      } else if bid in SweepAll(live, bs, faults).summary.outcomes {
        assert Wanted(bs[n]) && bs[n].bid == bid;
      }
    }
  }

  lemma NewStatus(outcomes: map<string, Status>, bid: string, st: Status, sts: set<Status>)
    requires bid !in outcomes
    ensures |WithStatus(outcomes[bid := st], sts)| == |WithStatus(outcomes, sts)| + if st in sts then 1 else 0
  {
    if st in sts {
      assert WithStatus(outcomes[bid := st], sts) == WithStatus(outcomes, sts) + {bid};
    } else {
      assert WithStatus(outcomes[bid := st], sts) == WithStatus(outcomes, sts);
    }
  }

  /** The counts split the remote bindings, and each is the number of outcomes of its kind. */
  lemma {:induction false} CountsPartition(live: Live, bs: seq<Binding>, faults: Faults)
    requires DistinctIds(bs)
    ensures var s := SweepAll(live, bs, faults).summary;
      && s.created + s.existing + s.failed + s.skipped == RemoteCount(bs)
      && s.created == |WithStatus(s.outcomes, {CREATED})|
      && s.existing == |WithStatus(s.outcomes, {EXISTS})|
      && s.failed == |WithStatus(s.outcomes, {CONFLICT, FAILED})|
    decreases bs
  {
    if bs != [] {
      var n := |bs| - 1;
      var b, before := bs[n], SweepAll(live, bs[..n], faults);
      CountsPartition(live, bs[..n], faults);
      if Wanted(b) {
        OutcomeKeys(live, bs[..n], faults, b.bid);
        assert b.bid !in before.summary.outcomes;
        var st := Verdict(Entry(before.live, b.mountpointId), b, FaultOf(faults, b));
        NewStatus(before.summary.outcomes, b.bid, st, {CREATED});
        NewStatus(before.summary.outcomes, b.bid, st, {EXISTS});
        NewStatus(before.summary.outcomes, b.bid, st, {CONFLICT, FAILED});
      }
    }
  }

  // ---------- each binding on its own ----------

  lemma {:induction false} OthersLeaveEntry(live: Live, bs: seq<Binding>, faults: Faults, id: int)
    requires !Wants(bs, id)
    ensures Entry(SweepAll(live, bs, faults).live, id) == Entry(live, id)
  {
    SweepTouches(live, bs, faults, id);
  }

  /** Isolation: a binding's outcome and mountpoint depend on its own id's entry and its own fault only,
      whatever happens to every other binding. */
  lemma {:induction false} Isolated(live: Live, bs: seq<Binding>, faults: Faults, i: nat)
    requires DistinctIds(bs) && DistinctMountpoints(bs) && i < |bs| && Wanted(bs[i])
    ensures var s, b, f := SweepAll(live, bs, faults), bs[i], FaultOf(faults, bs[i]);
      && b.bid in s.summary.outcomes
      && s.summary.outcomes[b.bid] == Verdict(Entry(live, b.mountpointId), b, f)
      && Entry(s.live, b.mountpointId) == Entry(Provided(live, b, f), b.mountpointId)
    decreases bs
  {
    var n := |bs| - 1;
    if i == n {
      var id := bs[i].mountpointId;
      assert !Wants(bs[..n], id) by {
        forall k | 0 <= k < n ensures !(Wanted(bs[..n][k]) && bs[..n][k].mountpointId == id) {
          assert bs[..n][k] == bs[k];
        }
      }
      OthersLeaveEntry(live, bs[..n], faults, id);
    } else {
      assert bs[..n][i] == bs[i];
      Isolated(live, bs[..n], faults, i);
      LastLeaves(SweepAll(live, bs[..n], faults), bs[n], FaultOf(faults, bs[n]), bs[i]);
    }
  }

  /** The outcome and the mountpoint of a wanted binding, by what was live under its id and by its fault. */
  lemma OutcomeIs(live: Live, bs: seq<Binding>, faults: Faults, i: nat)
    requires DistinctIds(bs) && DistinctMountpoints(bs) && i < |bs| && Wanted(bs[i])
    ensures var s, b := SweepAll(live, bs, faults), bs[i];
      var f := if b.bid in faults then faults[b.bid] else NoFault;
      && b.bid in s.summary.outcomes
      && s.summary.outcomes[b.bid] == (
           if f in {Refused, ReplyLost, Raises} then FAILED
           else if b.mountpointId !in live then CREATED
           else if f == BadListing then FAILED
           else if f == NoFault && Clashes(live, b) then CONFLICT
           else EXISTS)
      && (b.mountpointId in s.live <==> b.mountpointId in live || f !in {Refused, Raises})
      && (b.mountpointId in s.live ==>
            s.live[b.mountpointId] == if b.mountpointId in live then live[b.mountpointId] else Some(b.rtpPort))
  {
    Isolated(live, bs, faults, i);
  }

  lemma LastLeaves(s: Sweep, last: Binding, f: Fault, b: Binding)
    requires last.bid != b.bid && (Wanted(last) ==> last.mountpointId != b.mountpointId)
    ensures var t := SweepOne(s, last, f);
      && Entry(t.live, b.mountpointId) == Entry(s.live, b.mountpointId)
      && (b.bid in s.summary.outcomes ==> b.bid in t.summary.outcomes && t.summary.outcomes[b.bid] == s.summary.outcomes[b.bid])
  {
  }

  // ---------- recovery ----------

  /** A sweep makes every wanted binding live unless its create failed, even when ids are shared. */
  lemma {:induction false} SweepProvides(live: Live, bs: seq<Binding>, faults: Faults, i: nat)
    requires i < |bs| && Wanted(bs[i]) && FaultOf(faults, bs[i]) !in {Refused, Raises}
    ensures bs[i].mountpointId in SweepAll(live, bs, faults).live
    decreases bs
  {
    var n := |bs| - 1;
    if i < n {
      assert bs[..n][i] == bs[i];
      SweepProvides(live, bs[..n], faults, i);
    }
  }

  /** A sweep over a Janus where every wanted binding is live creates nothing and changes nothing. */
  lemma {:induction false} NothingMissing(live: Live, bs: seq<Binding>, faults: Faults)
    requires forall i :: 0 <= i < |bs| && Wanted(bs[i]) ==> bs[i].mountpointId in live
    ensures var s := SweepAll(live, bs, faults); s.live == live && s.summary.created == 0
    decreases bs
  {
    if bs != [] {
      var n := |bs| - 1;
      forall i | 0 <= i < n && Wanted(bs[..n][i]) ensures bs[..n][i].mountpointId in live { assert bs[..n][i] == bs[i]; }
      NothingMissing(live, bs[..n], faults);
    }
  }

  /** A second sweep creates nothing when no create failed in the first, whatever fails in the second. */
  lemma SecondSweepCreatesNone(live: Live, bs: seq<Binding>, first: Faults, second: Faults)
    requires forall i :: 0 <= i < |bs| && Wanted(bs[i]) ==> FaultOf(first, bs[i]) !in {Refused, Raises}
    ensures var once := SweepAll(live, bs, first).live;
      var again := SweepAll(once, bs, second);
      again.live == once && again.summary.created == 0
  {
    var once := SweepAll(live, bs, first).live;
    forall i | 0 <= i < |bs| && Wanted(bs[i]) ensures bs[i].mountpointId in once { SweepProvides(live, bs, first, i); }
    NothingMissing(once, bs, second);
  }

  /** The binding's id is live on a known other port. */
  predicate Clashes(live: Live, b: Binding) {
    b.mountpointId in live && live[b.mountpointId].Some? && live[b.mountpointId].value != b.rtpPort
  }

  /** Recovery: however many mountpoints are lost, a fault-free sweep gives each wanted binding a
      mountpoint again, on its own port and reported created when it had none left; one that survived
      on a known other port is left as it was and reported; every other id is as the loss left it. */
  lemma RecoversAfterLoss(live: Live, lost: set<int>, bs: seq<Binding>, i: nat)
    requires DistinctIds(bs) && DistinctMountpoints(bs) && i < |bs| && Wanted(bs[i])
    ensures var left, b := live - lost, bs[i];
      var s := SweepAll(left, bs, FAULT_FREE);
      && b.mountpointId in s.live && b.bid in s.summary.outcomes
      && (b.mountpointId !in left ==> s.live[b.mountpointId] == Some(b.rtpPort) && s.summary.outcomes[b.bid] == CREATED)
      && (b.mountpointId in left ==>
            && s.live[b.mountpointId] == live[b.mountpointId]
            && s.summary.outcomes[b.bid] == if Clashes(left, b) then CONFLICT else EXISTS)
  {
    Isolated(live - lost, bs, FAULT_FREE, i);
  }

  /** After a Janus restart, the live mountpoints are exactly the wanted ones, each on its port. */
  lemma RestartRestoresExactly(bs: seq<Binding>)
    requires DistinctIds(bs) && DistinctMountpoints(bs)
    ensures var s := SweepAll(map[], bs, FAULT_FREE);
      && (forall id :: id in s.live <==> Wants(bs, id))
      && (forall i :: 0 <= i < |bs| && Wanted(bs[i]) ==> Entry(s.live, bs[i].mountpointId) == Some(Some(bs[i].rtpPort)))
      && s.summary.Ok() && s.summary.existing == 0
  {
    var s := SweepAll(map[], bs, FAULT_FREE);
    forall i | 0 <= i < |bs| && Wanted(bs[i])
      ensures bs[i].bid in s.summary.outcomes && s.summary.outcomes[bs[i].bid] == CREATED
      ensures Entry(s.live, bs[i].mountpointId) == Some(Some(bs[i].rtpPort))
    {
      Isolated(map[], bs, FAULT_FREE, i);
    }
    forall id ensures id in s.live <==> Wants(bs, id) { SweepTouches(map[], bs, FAULT_FREE, id); }
    CountsPartition(map[], bs, FAULT_FREE);
    forall bid | bid in s.summary.outcomes ensures s.summary.outcomes[bid] == CREATED {
      OutcomeKeys(map[], bs, FAULT_FREE, bid);
    }
    assert WithStatus(s.summary.outcomes, {CONFLICT, FAILED}) == {} && WithStatus(s.summary.outcomes, {EXISTS}) == {};
  }

  /** Without faults a sweep is ok if and only if no wanted binding's id is live on a known other port. */
  lemma FaultFreeOkIff(live: Live, bs: seq<Binding>)
    requires DistinctIds(bs) && DistinctMountpoints(bs)
    ensures SweepAll(live, bs, FAULT_FREE).summary.Ok() <==>
      forall i :: 0 <= i < |bs| && Wanted(bs[i]) ==> !Clashes(live, bs[i])
  {
    var s := SweepAll(live, bs, FAULT_FREE).summary;
    CountsPartition(live, bs, FAULT_FREE);
    var bad := WithStatus(s.outcomes, {CONFLICT, FAILED});
    forall i | 0 <= i < |bs| && Wanted(bs[i])
      ensures bs[i].bid in bad <==> Clashes(live, bs[i])
    {
      Isolated(live, bs, FAULT_FREE, i);
      assert s.outcomes[bs[i].bid] == Verdict(Entry(live, bs[i].mountpointId), bs[i], NoFault);
    }
    forall bid | bid in bad ensures exists i :: 0 <= i < |bs| && Wanted(bs[i]) && bs[i].bid == bid {
      OutcomeKeys(live, bs, FAULT_FREE, bid);
    }
    if s.failed == 0 {
      assert bad == {};
    } else {
      assert bad != {};
      var bid :| bid in bad;
    }
  }

  /** Shared ids are why the sweep needs distinct ones: the second binding meets the first one's port. */
  lemma SharedIdConflicts(a: Binding, b: Binding)
    requires Wanted(a) && Wanted(b) && a.bid != b.bid && a.mountpointId == b.mountpointId && a.rtpPort != b.rtpPort
    ensures var s := SweepAll(map[], [a, b], FAULT_FREE);
      s.summary.outcomes == map[a.bid := CREATED, b.bid := CONFLICT] && s.live == map[a.mountpointId := Some(a.rtpPort)]
  {
    assert [a, b][..1] == [a] && [a][..0] == [];
    assert SweepAll(map[], [a], FAULT_FREE) == SweepOne(SweepAll(map[], [], FAULT_FREE), a, NoFault);
  }
}
