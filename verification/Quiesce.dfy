/** The FDIR quiesce gate (app/services/fdir_quiesce.py). Every method is one section under the lock;
    the monotonic clock is a parameter. */
module Quiesce {

  const QUIESCE_TTL_CEILING_SEC: real := 120.0

  datatype Domain = SENSOR | PIPELINE | JANUS | NETWORK | TURN | CLIENT | SYSTEM | PRODUCER

  /** The module's globals. */
  datatype Gate = Gate(until: real, domains: set<Domain>, reason: string, arms: nat)

  const CLEARED := Gate(0.0, {}, "", 0)

  datatype Event =
    | Arm(now: real, ttl: real, reason: string, domains: set<Domain>)
    | Disarm

  function Effective(ttl: real): real {
    if ttl < QUIESCE_TTL_CEILING_SEC then ttl else QUIESCE_TTL_CEILING_SEC
  }

  function Step(g: Gate, e: Event): Gate {
    match e
    case Arm(now, ttl, reason, domains) =>
      if ttl <= 0.0 then g
      else if g.arms == 0 then Gate(now + Effective(ttl), domains, reason, 1)
      else g.(domains := g.domains + domains, arms := g.arms + 1)
    case Disarm =>
      if g.arms <= 1 then CLEARED else g.(arms := g.arms - 1)
  }

  predicate Suppressed(g: Gate, now: real, d: Domain) {
    g.until > now && d in g.domains
  }

  function Run(events: seq<Event>): Gate {
    if events == [] then CLEARED else Step(Run(events[..|events| - 1]), events[|events| - 1])
  }

  class QuiesceGate {
    var until: real
    var domains: set<Domain>
    var reason: string
    var arms: nat
    ghost var log: seq<Event>

    function State(): Gate
      reads this
    {
      Gate(until, domains, reason, arms)
    }

    /** The gate is what its whole history of arms and disarms made it. */
    ghost predicate Valid()
      reads this
    {
      State() == Run(log)
    }

    constructor ()
      ensures Valid() && State() == CLEARED && log == []
    {
      until, domains, reason, arms, log := 0.0, {}, "", 0, [];
    }

    method IsQuiesced(domain: Domain, now: real) returns (r: bool)
      requires Valid()
      ensures r <==> Suppressed(State(), now, domain)
      ensures r <==> now < until && domain in domains
    {
      r := until > now && domain in domains;
    }

    method Quiesce(ttl: real, why: string, ds: set<Domain>, now: real)
      requires Valid()
      modifies this
      ensures Valid() && log == old(log) + [Arm(now, ttl, why, ds)]
      ensures State() == Step(old(State()), Arm(now, ttl, why, ds))
    {
      log := log + [Arm(now, ttl, why, ds)];
      assert log[..|log| - 1] == old(log);
      if ttl <= 0.0 {
        return;
      }
      var eff := if ttl < QUIESCE_TTL_CEILING_SEC then ttl else QUIESCE_TTL_CEILING_SEC;
      if arms == 0 {
        until := now + eff;
        domains := ds;
        reason := why;
      } else {
        domains := domains + ds;
      }
      arms := arms + 1;
    }

    method Unquiesce()
      requires Valid()
      modifies this
      ensures Valid() && log == old(log) + [Disarm]
      ensures State() == Step(old(State()), Disarm)
    {
      log := log + [Disarm];
      assert log[..|log| - 1] == old(log);
      arms := if arms > 0 then arms - 1 else 0;
      if arms == 0 {
        until := 0.0;
        domains := {};
        reason := "";
      }
    }
  }
}

/** What suppression over a whole run amounts to. */
module QuiesceLaws {
  import opened Quiesce

  predicate Arms(e: Event) {
    e.Arm? && e.ttl > 0.0
  }

  /** Event `i` armed an idle gate, and the gate has been armed after every event since. */
  predicate EpochStart(events: seq<Event>, i: int)
    decreases events
  {
    0 <= i < |events| && Arms(events[i]) && Run(events).arms > 0 &&
    var init := events[..|events| - 1];
    if i == |init| then Run(init).arms == 0 else EpochStart(init, i)
  }

  /** When an arm's suppression ends at the latest: after its time, or 120 seconds if that is less. */
  function Deadline(arm: Event): real
    requires arm.Arm?
  {
    arm.now + if arm.ttl <= 120.0 then arm.ttl else 120.0
  }

  ghost predicate Named(events: seq<Event>, i: nat, d: Domain) {
    exists j :: i <= j < |events| && Arms(events[j]) && d in events[j].domains
  }

  /** An armed gate is in exactly one epoch; its deadline is the clamped deadline of the arm that
      started it, and its domains are those named since. */
  lemma {:induction false} ArmedGate(events: seq<Event>) returns (i: nat)
    requires Run(events).arms > 0
    ensures EpochStart(events, i)
    ensures Run(events).until == Deadline(events[i])
    ensures forall d :: d in Run(events).domains <==> Named(events, i, d)
    decreases events
  {
    var init, e := events[..|events| - 1], events[|events| - 1];
    assert events == init + [e];
    if Run(init).arms == 0 {
      i := |init|;
      assert forall d :: Named(events, i, d) <==> d in events[i].domains;
    } else {
      i := ArmedGate(init);
      forall d ensures d in Run(events).domains <==> Named(events, i, d) { NamedGrows(init, e, i, d); }
    }
  }

  lemma NamedGrows(events: seq<Event>, e: Event, i: nat, d: Domain)
    requires i <= |events|
    ensures Named(events + [e], i, d) <==> Named(events, i, d) || (Arms(e) && d in e.domains)
  {
    var all := events + [e];
    assert all[|events|] == e;
    if j :| i <= j < |events| && Arms(events[j]) && d in events[j].domains { assert all[j] == events[j]; }
  }

  lemma {:induction false} IdleIsCleared(events: seq<Event>)
    requires Run(events).arms == 0
    ensures Run(events) == CLEARED
    decreases events
  {
    if events != [] && !events[|events| - 1].Disarm? { IdleIsCleared(events[..|events| - 1]); }
  }

  /** One arm: refused without a time; at an idle gate it sets deadline, domains and reason; at an armed one
      it adds its domains and counts. One disarm: the last one clears everything. */
  lemma StepIs(g: Gate, e: Event)
    ensures Step(g, e) ==
      if e.Disarm? then (if g.arms <= 1 then Gate(0.0, {}, "", 0) else Gate(g.until, g.domains, g.reason, g.arms - 1))
      else if e.ttl <= 0.0 then g
      else if g.arms > 0 then Gate(g.until, g.domains + e.domains, g.reason, g.arms + 1)
      else Gate(Deadline(e), e.domains, e.reason, 1)
  {
  }

  lemma {:induction false} EpochUnique(events: seq<Event>, i: int, j: int)
    requires EpochStart(events, i) && EpochStart(events, j)
    ensures i == j
    decreases events
  {
    var init := events[..|events| - 1];
    if i < |init| && j < |init| { EpochUnique(init, i, j); }
    if i != j && (i == |init| || j == |init|) { EpochIsArmed(init, if i < j then i else j); }
  }

  lemma EpochIsArmed(events: seq<Event>, i: int)
    requires EpochStart(events, i)
    ensures Run(events).arms > 0
  {
  }

  /** A domain is suppressed at a moment exactly when the current epoch's first arm has not reached
      its clamped deadline and some arm of this epoch named the domain. Later arms never move the
      deadline, and nothing revives an epoch that has passed it. */
  lemma SuppressedIff(events: seq<Event>, now: real, d: Domain)
    ensures Run(events).until > now && d in Run(events).domains <==>
      exists i :: EpochStart(events, i) && now < Deadline(events[i]) && Named(events, i, d)
  {
    if Run(events).arms == 0 {
      IdleIsCleared(events);
    } else {
      var i := ArmedGate(events);
      if j :| EpochStart(events, j) && now < Deadline(events[j]) && Named(events, j, d) {
        EpochUnique(events, i, j);
      }
    }
  }

  /** Within one epoch no moment of suppression is 120 seconds or more after the first arm: at two
      moments of the same epoch, however it was extended in between, the bound is the same. */
  lemma EpochBound(events: seq<Event>, more: seq<Event>, i: nat, now: real, d: Domain)
    requires EpochStart(events, i) && EpochStart(events + more, i)
    requires Suppressed(Run(events + more), now, d)
    ensures now < events[i].now + 120.0
    ensures Run(events + more).until == Run(events).until
  {
    var j := ArmedGate(events);
    var k := ArmedGate(events + more);
    EpochUnique(events, i, j);
    EpochUnique(events + more, i, k);
    assert (events + more)[i] == events[i];
  }

  // ---------- balance ----------

  /** Effective arms minus disarms. */
  function Balance(events: seq<Event>): int {
    if events == [] then 0
    else
      var e := events[|events| - 1];
      Balance(events[..|events| - 1]) + (if e.Disarm? then -1 else if Arms(e) then 1 else 0)
  }

  /** No disarm without an open arm: what nested or overlapping blocks with positive times produce. */
  predicate NeverOver(events: seq<Event>) {
    events == [] || (NeverOver(events[..|events| - 1]) && Balance(events) >= 0)
  }

  lemma {:induction false} CountIsBalance(events: seq<Event>)
    requires NeverOver(events)
    ensures Run(events).arms == Balance(events)
    decreases events
  {
    if events != [] { CountIsBalance(events[..|events| - 1]); }
  }

  /** Balanced use returns to the cleared state, and only balanced use does. */
  lemma ClearedIffBalanced(events: seq<Event>)
    requires NeverOver(events)
    ensures Run(events) == CLEARED <==> Balance(events) == 0
  {
    CountIsBalance(events);
    if Balance(events) == 0 { IdleIsCleared(events); }
  }

  // ---------- blocks ----------

  /** While `mid` goes on after `events`, somebody disarms an idle gate. */
  predicate Surplus(events: seq<Event>, mid: seq<Event>)
    decreases mid
  {
    mid != [] &&
    var init := mid[..|mid| - 1];
    (Surplus(events, init) || (mid[|mid| - 1].Disarm? && Run(events + init).arms == 0))
  }

  /** The gate is armed all the while. */
  predicate ArmedThroughout(events: seq<Event>, mid: seq<Event>)
    decreases mid
  {
    Run(events + mid).arms > 0 && (mid == [] || ArmedThroughout(events, mid[..|mid| - 1]))
  }

  lemma RunSnoc(events: seq<Event>, e: Event)
    ensures Run(events + [e]) == Step(Run(events), e)
  {
    assert (events + [e])[..|events|] == events;
  }

  lemma LastStep(events: seq<Event>, mid: seq<Event>)
    requires mid != []
    ensures Run(events + mid) == Step(Run(events + mid[..|mid| - 1]), mid[|mid| - 1])
  {
    RunSnoc(events + mid[..|mid| - 1], mid[|mid| - 1]);
    assert events + mid == events + mid[..|mid| - 1] + [mid[|mid| - 1]];
  }

  /** An arm that arms nothing might as well not be there. */
  lemma {:induction false} SkippedArm(events: seq<Event>, arm: Event, mid: seq<Event>)
    requires arm.Arm? && !Arms(arm)
    ensures Run(events + [arm] + mid) == Run(events + mid)
    decreases mid
  {
    if mid == [] {
      RunSnoc(events, arm);
      assert events + [arm] + mid == events + [arm] && events + mid == events;
    } else {
      SkippedArm(events, arm, mid[..|mid| - 1]);
      LastStep(events, mid);
      LastStep(events + [arm], mid);
    }
  }

  /** An effective arm is one more in the count, until a surplus disarm takes it. */
  lemma {:induction false} ShiftedCount(events: seq<Event>, arm: Event, mid: seq<Event>)
    requires Arms(arm)
    ensures Run(events + [arm] + mid).arms == Run(events + mid).arms + if Surplus(events, mid) then 0 else 1
    decreases mid
  {
    if mid == [] {
      RunSnoc(events, arm);
      assert events + [arm] + mid == events + [arm] && events + mid == events;
    } else {
      ShiftedCount(events, arm, mid[..|mid| - 1]);
      LastStep(events, mid);
      LastStep(events + [arm], mid);
    }
  }

  /** While the gate stays armed, an arm in the middle of an epoch adds its domains and nothing else. */
  lemma {:induction false} GuestArm(events: seq<Event>, arm: Event, mid: seq<Event>)
    requires Arms(arm) && ArmedThroughout(events, mid)
    ensures var plain := Run(events + mid);
      Run(events + [arm] + mid) == plain.(arms := plain.arms + 1, domains := plain.domains + arm.domains)
    decreases mid
  {
    if mid == [] {
      RunSnoc(events, arm);
      assert events + [arm] + mid == events + [arm] && events + mid == events;
    } else {
      GuestArm(events, arm, mid[..|mid| - 1]);
      LastStep(events, mid);
      LastStep(events + [arm], mid);
    }
  }

  /** A `quiesced` block, with everything that others do while it is open. Its entry and exit together
      leave the count as the others alone would have left it if and only if its time is positive and
      no surplus disarm took its arm, or nobody holds an arm when it exits. Otherwise its exit takes
      somebody else's arm, and if that was the last one, ends suppression in every domain. */
  lemma BlockIsNeutralIff(events: seq<Event>, mid: seq<Event>, now: real, ttl: real, reason: string, domains: set<Domain>)
    ensures var others, after := Run(events + mid), Run(events + [Arm(now, ttl, reason, domains)] + mid + [Disarm]);
      && (after.arms == others.arms <==> (ttl > 0.0 && !Surplus(events, mid)) || others.arms == 0)
      && ((ttl <= 0.0 || Surplus(events, mid)) && others.arms == 1 ==> after == CLEARED)
      && (ttl > 0.0 && ArmedThroughout(events, mid) ==> after == others.(domains := others.domains + domains))
  {
    var arm := Arm(now, ttl, reason, domains);
    RunSnoc(events + [arm] + mid, Disarm);
    if ttl <= 0.0 {
      SkippedArm(events, arm, mid);
    } else {
      ShiftedCount(events, arm, mid);
      if ArmedThroughout(events, mid) { GuestArm(events, arm, mid); }
    }
  }

  lemma {:induction false} BalancedHasNoSurplus(events: seq<Event>, mid: seq<Event>)
    requires NeverOver(events + mid)
    ensures !Surplus(events, mid) && NeverOver(events)
    decreases mid
  {
    if mid == [] {
      assert events + mid == events;
    } else {
      var init, all := mid[..|mid| - 1], events + mid;
      assert all[..|all| - 1] == events + init;
      BalancedHasNoSurplus(events, init);
      CountIsBalance(events + init);
    }
  }

  /** Among others who only disarm what they armed: a block is neutral if and only if its time is
      positive or nobody holds an arm when it exits. Whether the gate was idle at entry does not matter. */
  lemma BlockAmongBalancedIff(events: seq<Event>, mid: seq<Event>, now: real, ttl: real, reason: string, domains: set<Domain>)
    requires NeverOver(events + mid)
    ensures var others, after := Run(events + mid), Run(events + [Arm(now, ttl, reason, domains)] + mid + [Disarm]);
      after.arms == others.arms <==> ttl > 0.0 || others.arms == 0
  {
    BalancedHasNoSurplus(events, mid);
    BlockIsNeutralIff(events, mid, now, ttl, reason, domains);
  }

  /** Entered with no time at an idle gate, a block ends the suppression that another caller armed while
      it was open. */
  lemma BlockEndsAnother(d: Domain)
    ensures var block, other := Arm(0.0, 0.0, "block", {}), Arm(1.0, 60.0, "other", {d});
      && Run([]).arms == 0
      && Suppressed(Run([] + [block] + [other]), 2.0, d)
      && Run([] + [block] + [other] + [Disarm]) == CLEARED
  {
    var block, other := Arm(0.0, 0.0, "block", {}), Arm(1.0, 60.0, "other", {d});
    RunSnoc([], block);
    RunSnoc([] + [block], other);
    RunSnoc([] + [block] + [other], Disarm);
  }
}
