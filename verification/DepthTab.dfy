/** One browser tab's depth clicks (templates/depth_features.js): the bounded map of pending queries,
    their timers and their promises. Handlers run one at a time. */
module DepthTab {
  import opened Options

  const PENDING_QUERIES_MAX := 64

  /** `dq-<time>-<counter>`: the counter is never reused in a tab. */
  datatype ReqId = ReqId(ms: int, n: nat)

  /** A promise that was resolved, with a depth or with null. */
  datatype Resolution = Resolution(req: ReqId, depth: Option<real>)

  /** The pending map's keys in insertion order, the armed timers, the resolve calls made so far and the
      request counter. */
  datatype Tab = Tab(pending: seq<ReqId>, timers: set<ReqId>, resolutions: seq<Resolution>, counter: nat)

  function NewTab(): Tab {
    Tab([], {}, [], 0)
  }

  function Without(s: seq<ReqId>, r: ReqId): seq<ReqId> {
    if s == [] then [] else if s[0] == r then Without(s[1..], r) else [s[0]] + Without(s[1..], r)
  }

  /** The query leaves the map, its timer is cleared and its promise resolves. */
  function Settle(t: Tab, r: ReqId, depth: Option<real>): Tab {
    t.(pending := Without(t.pending, r), timers := t.timers - {r}, resolutions := t.resolutions + [Resolution(r, depth)])
  }

  function Pruned(t: Tab): Tab {
    if |t.pending| >= PENDING_QUERIES_MAX then Settle(t, t.pending[0], None) else t
  }

  /** A click with the back channel ready: the oldest query makes room, and a failed publish settles
      the new one at once. */
  function Click(t: Tab, ms: int, publishes: bool): Tab {
    var r := ReqId(ms, t.counter);
    var p := Pruned(t);
    var asked := p.(pending := p.pending + [r], timers := p.timers + {r}, counter := t.counter + 1);
    if publishes then asked else Settle(asked, r, None)
  }

  function Receive(t: Tab, req: Option<ReqId>, depth: Option<real>): Tab {
    if req.None? || req.value !in t.pending then t else Settle(t, req.value, depth)
  }

  function Resolved(t: Tab): set<ReqId> {
    set i | 0 <= i < |t.resolutions| :: t.resolutions[i].req
  }

  /** Between handlers: the pending queries are in the order asked, at most the maximum, exactly those
      with an armed timer, and none of them is resolved; no promise was resolved twice. */
  ghost predicate Settled(t: Tab) {
    && |t.pending| <= PENDING_QUERIES_MAX
    && (forall i, j :: 0 <= i < j < |t.pending| ==> t.pending[i].n < t.pending[j].n)
    && (forall r :: r in t.pending ==> r.n < t.counter)
    && (forall r :: r in t.timers <==> r in t.pending)
    && (forall i :: 0 <= i < |t.resolutions| ==> t.resolutions[i].req.n < t.counter && t.resolutions[i].req !in t.pending)
    && (forall i, j :: 0 <= i < j < |t.resolutions| ==> t.resolutions[i].req != t.resolutions[j].req)
  }

  class DepthClicks {
    var pending: seq<ReqId>
    var timers: set<ReqId>
    var resolutions: seq<Resolution>
    var reqCounter: nat

    function State(): Tab
      reads this
    {
      Tab(pending, timers, resolutions, reqCounter)
    }

    constructor ()
      ensures State() == NewTab() && Settled(State())
    {
      pending, timers, resolutions, reqCounter := [], {}, [], 0;
    }

    method Delete(r: ReqId)
      modifies this`pending
      ensures pending == Without(old(pending), r)
    {
      var kept: seq<ReqId> := [];
      for i := 0 to |pending|
        invariant kept + Without(pending[i..], r) == Without(pending, r)
        invariant pending == old(pending)
      {
        assert pending[i..][1..] == pending[i + 1..];
        if pending[i] != r {
          assert kept + ([pending[i]] + Without(pending[i + 1..], r)) == kept + [pending[i]] + Without(pending[i + 1..], r);
          kept := kept + [pending[i]];
        }
      }
      pending := kept;
    }

    /** Clear the timer, forget the query, resolve its promise. */
    method SettleQuery(r: ReqId, depth: Option<real>)
      modifies this`pending, this`timers, this`resolutions
      ensures State() == Settle(old(State()), r, depth)
    {
      timers := timers - {r};
      Delete(r);
      resolutions := resolutions + [Resolution(r, depth)];
    }

    /** None when the back channel is not ready: the caller gets null and nothing is asked. */
    method FetchDepthTextroom(ready: bool, ms: int, publishes: bool) returns (req: Option<ReqId>)
      requires Settled(State())
      modifies this
      ensures Settled(State())
      ensures req == if ready then Some(ReqId(ms, old(reqCounter))) else None
      ensures State() == if ready then Click(old(State()), ms, publishes) else old(State())
    {
      if !ready {
        return None;
      }
      ClickSettled(State(), ms, publishes);
      var r := ReqId(ms, reqCounter);
      reqCounter := reqCounter + 1;
      timers := timers + {r};
      if |pending| >= PENDING_QUERIES_MAX {
        var oldest := pending[0];
        assert timers - {oldest} == (timers - {r} - {oldest}) + {r};
        SettleQuery(oldest, None);
      }
      pending := pending + [r];
      if !publishes {
        SettleQuery(r, None);
      }
      req := Some(r);
    }

    method TimerFires(r: ReqId)
      requires Settled(State()) && r in timers
      modifies this
      ensures Settled(State()) && State() == Settle(old(State()), r, None)
    {
      SettleSettled(State(), r, None);
      SettleQuery(r, None);
    }

    /** A stream message that parsed; a missing `req_id` is None, as is a depth that is no number. */
    method OnMessage(req: Option<ReqId>, depth: Option<real>)
      requires Settled(State())
      modifies this
      ensures Settled(State()) && State() == Receive(old(State()), req, depth)
    {
      if req.None? || req.value !in pending {
        return;
      }
      SettleSettled(State(), req.value, depth);
      SettleQuery(req.value, depth);
    }
  }

  // ---------- what handlers keep ----------

  lemma {:induction false} WithoutIs(s: seq<ReqId>, r: ReqId)
    ensures forall x :: x in Without(s, r) <==> x in s && x != r
    ensures |Without(s, r)| <= |s| && (r in s ==> |Without(s, r)| < |s|)
    decreases s
  {
    if s != [] {
      WithoutIs(s[1..], r);
      assert s == [s[0]] + s[1..];
    }
  }

  lemma {:induction false} WithoutKeepsOrder(s: seq<ReqId>, r: ReqId)
    requires forall i, j :: 0 <= i < j < |s| ==> s[i].n < s[j].n
    ensures var w := Without(s, r); forall i, j :: 0 <= i < j < |w| ==> w[i].n < w[j].n
    decreases s
  {
    if s != [] {
      WithoutKeepsOrder(s[1..], r);
      WithoutIs(s[1..], r);
      var w := Without(s[1..], r);
      forall j | 0 <= j < |w| ensures s[0].n < w[j].n {
        assert w[j] in w;
        var k :| 0 <= k < |s[1..]| && s[1..][k] == w[j];
      }
    }
  }

  lemma SettleSettled(t: Tab, r: ReqId, depth: Option<real>)
    requires Settled(t) && r in t.pending
    ensures Settled(Settle(t, r, depth))
  {
    WithoutIs(t.pending, r);
    WithoutKeepsOrder(t.pending, r);
  }

  lemma PrunedSettled(t: Tab)
    requires Settled(t)
    ensures Settled(Pruned(t)) && |Pruned(t).pending| < PENDING_QUERIES_MAX
    ensures Pruned(t).counter == t.counter && forall r :: r in Pruned(t).pending ==> r in t.pending
  {
    if |t.pending| >= PENDING_QUERIES_MAX {
      SettleSettled(t, t.pending[0], None);
      WithoutIs(t.pending, t.pending[0]);
    }
  }

  lemma ClickSettled(t: Tab, ms: int, publishes: bool)
    requires Settled(t)
    ensures Settled(Click(t, ms, publishes))
  {
    var r, p := ReqId(ms, t.counter), Pruned(t);
    PrunedSettled(t);
    var asked := p.(pending := p.pending + [r], timers := p.timers + {r}, counter := t.counter + 1);
    assert r !in p.pending;
    assert Settled(asked);
    if !publishes { SettleSettled(asked, r, None); }
  }
}

/** Every run of one tab's handlers. */
module DepthTabLaws {
  import opened Options
  import opened DepthTab

  /** Clicks, timers firing and messages, in any order; a timer fires only while it is armed. */
  datatype Event =
    | Clicked(ms: int, publishes: bool)
    | Fired(req: ReqId)
    | Got(about: Option<ReqId>, depth: Option<real>)

  function Step(t: Tab, e: Event): Tab {
    match e
    case Clicked(ms, publishes) => Click(t, ms, publishes)
    case Fired(r) => if r in t.timers then Settle(t, r, None) else t
    case Got(req, depth) => Receive(t, req, depth)
  }

  function Run(events: seq<Event>): Tab {
    if events == [] then NewTab() else Step(Run(events[..|events| - 1]), events[|events| - 1])
  }

  /** The queries asked, in order. */
  function Asked(events: seq<Event>): seq<ReqId> {
    if events == [] then []
    else
      var before, e := events[..|events| - 1], events[|events| - 1];
      Asked(before) + if e.Clicked? then [ReqId(e.ms, Run(before).counter)] else []
  }

  lemma StepSettled(t: Tab, e: Event)
    requires Settled(t)
    ensures Settled(Step(t, e))
  {
    match e
    case Clicked(ms, publishes) => ClickSettled(t, ms, publishes);
    case Fired(r) => if r in t.timers { SettleSettled(t, r, None); }
    case Got(req, depth) => if req.Some? && req.value in t.pending { SettleSettled(t, req.value, depth); }
  }

  lemma {:induction false} RunSettled(events: seq<Event>)
    ensures Settled(Run(events))
    decreases events
  {
    if events != [] {
      RunSettled(events[..|events| - 1]);
      StepSettled(Run(events[..|events| - 1]), events[|events| - 1]);
    }
  }

  /** Each asked query is pending or resolved, never both, and nothing else is either. */
  predicate Tracked(t: Tab, asked: seq<ReqId>) {
    && t.counter == |asked|
    && (forall i :: 0 <= i < |asked| ==> asked[i].n == i)
    && (forall r :: r in asked ==> (r in t.pending <==> r !in Resolved(t)))
    && (forall r :: r in t.pending ==> r in asked)
    && (forall r :: r in Resolved(t) ==> r in asked)
  }

  lemma SettleTracked(t: Tab, asked: seq<ReqId>, r: ReqId, depth: Option<real>)
    requires Tracked(t, asked) && r in t.pending
    ensures Tracked(Settle(t, r, depth), asked)
  {
    WithoutIs(t.pending, r);
    ResolvedGrows(t, r, depth);
  }

  lemma ResolvedGrows(t: Tab, r: ReqId, depth: Option<real>)
    ensures Resolved(Settle(t, r, depth)) == Resolved(t) + {r}
  {
    var rs, last := t.resolutions, Settle(t, r, depth).resolutions;
    forall x ensures x in Resolved(Settle(t, r, depth)) <==> x in Resolved(t) + {r} {
      if x == r { assert last[|rs|].req == r; }
      if x in Resolved(t) {
        var i :| 0 <= i < |rs| && rs[i].req == x;
        assert last[i].req == x;
      }
    }
  }

  lemma ClickTracked(t: Tab, asked: seq<ReqId>, ms: int, publishes: bool)
    requires Settled(t) && Tracked(t, asked)
    ensures Tracked(Click(t, ms, publishes), asked + [ReqId(ms, t.counter)])
  {
    var r, p := ReqId(ms, t.counter), Pruned(t);
    if |t.pending| >= PENDING_QUERIES_MAX { SettleTracked(t, asked, t.pending[0], None); }
    var more := asked + [r];
    var q := p.(pending := p.pending + [r], timers := p.timers + {r}, counter := t.counter + 1);
    assert Resolved(q) == Resolved(p);
    assert r !in asked;
    assert Tracked(q, more);
    if !publishes { SettleTracked(q, more, r, None); }
  }

  /** In every run each click's promise is resolved at most once, and "unresolved", "in the pending map"
      and "timer armed" are the same thing; the map never holds more than its maximum. */
  lemma {:induction false} EachClickSettlesOnce(events: seq<Event>)
    ensures var t := Run(events);
      && Tracked(t, Asked(events)) && |t.pending| <= 64
      && (forall r :: r in Asked(events) ==> (r in t.timers <==> r in t.pending) && (r in t.pending <==> r !in Resolved(t)))
      && (forall i, j :: 0 <= i < j < |t.resolutions| ==> t.resolutions[i].req != t.resolutions[j].req)
    decreases events
  {
    RunSettled(events);
    if events != [] {
      var before, e := events[..|events| - 1], events[|events| - 1];
      EachClickSettlesOnce(before);
      RunSettled(before);
      var t := Run(before);
      match e
      case Clicked(ms, publishes) => ClickTracked(t, Asked(before), ms, publishes);
      case Fired(r) => if r in t.timers { SettleTracked(t, Asked(before), r, None); }
      case Got(req, depth) => if req.Some? && req.value in t.pending { SettleTracked(t, Asked(before), req.value, depth); }
    }
  }

  /** A click prunes nothing below the maximum; at the maximum it resolves, with null, exactly the
      oldest outstanding query. */
  lemma PruneTakesOldest(events: seq<Event>, ms: int)
    ensures var t := Run(events);
      var after := Click(t, ms, true);
      if |t.pending| < 64 then after.resolutions == t.resolutions
      else
        && after.resolutions == t.resolutions + [Resolution(t.pending[0], None)]
        && forall r :: r in Asked(events) && r !in Resolved(t) ==> t.pending[0].n <= r.n
  {
    EachClickSettlesOnce(events);
    RunSettled(events);
    var t := Run(events);
    forall r | r in t.pending ensures t.pending[0].n <= r.n {
      var i :| 0 <= i < |t.pending| && t.pending[i] == r;
    }
  }

  lemma RunSnoc(events: seq<Event>, e: Event)
    ensures Run(events + [e]) == Step(Run(events), e)
  {
    assert (events + [e])[..|events|] == events;
  }

  /** A click with the back channel ready: published, it waits as the newest query, unresolved and with its
      timer armed; not published, it is resolved with null at once. The other unresolved queries keep their
      order, but for the oldest, which goes if there were 64. */
  lemma ClickIs(events: seq<Event>, ms: int, publishes: bool)
    ensures var t, n := Run(events), Run(events + [Clicked(ms, publishes)]);
      var r, kept := ReqId(ms, |Asked(events)|), if |t.pending| < 64 then t.pending else t.pending[1..];
      && n.pending == (if publishes then kept + [r] else kept)
      && (n.resolutions != [] && n.resolutions[|n.resolutions| - 1] == Resolution(r, None) <==> !publishes)
  {
    RunSnoc(events, Clicked(ms, publishes));
    EachClickSettlesOnce(events);
    RunSettled(events);
    ClickSteps(Run(events), ms, publishes);
  }

  lemma ClickSteps(t: Tab, ms: int, publishes: bool)
    requires Settled(t)
    ensures var n, r := Click(t, ms, publishes), ReqId(ms, t.counter);
      var kept := if |t.pending| < 64 then t.pending else t.pending[1..];
      && n.pending == (if publishes then kept + [r] else kept)
      && (n.resolutions != [] && n.resolutions[|n.resolutions| - 1] == Resolution(r, None) <==> !publishes)
  {
    PrunedSettled(t);
    if |t.pending| >= 64 { NothingWithout(t.pending[1..], t.pending[0]); }
    WithoutLast(Pruned(t).pending, ReqId(ms, t.counter));
  }

  lemma {:induction false} NothingWithout(s: seq<ReqId>, r: ReqId)
    requires r !in s
    ensures Without(s, r) == s
  {
    if s != [] { NothingWithout(s[1..], r); }
  }

  lemma {:induction false} WithoutLast(s: seq<ReqId>, r: ReqId)
    requires r !in s
    ensures Without(s + [r], r) == s
  {
    if s != [] {
      assert (s + [r])[1..] == s[1..] + [r];
      WithoutLast(s[1..], r);
    }
  }

  /** A message settles the query it names, if that was asked and is unresolved, with the message's depth, or
      with null if it carries none; the query leaves the map and nothing else changes. Any other message does
      nothing. */
  lemma MessageIs(events: seq<Event>, about: Option<ReqId>, depth: Option<real>)
    ensures var t, n := Run(events), Run(events + [Got(about, depth)]);
      if about.Some? && about.value in Asked(events) && about.value !in Resolved(t)
      then
        && n.resolutions == t.resolutions + [Resolution(about.value, depth)]
        && n.timers == t.timers - {about.value} && n.counter == t.counter
        && forall r :: r in n.pending <==> r in t.pending && r != about.value
      else n == t
  {
    RunSnoc(events, Got(about, depth));
    EachClickSettlesOnce(events);
    if about.Some? { WithoutIs(Run(events).pending, about.value); }
  }

  /** A timer that fires settles its own query, unresolved until then, with null; any other does nothing. */
  lemma TimeoutIs(events: seq<Event>, r: ReqId)
    ensures Run(events + [Fired(r)]) == Run(events + [Got(Some(r), None)])
  {
    RunSnoc(events, Fired(r));
    RunSnoc(events, Got(Some(r), None));
    RunSettled(events);
  }

  /** Only a message about a query resolves it with a depth. */
  lemma {:induction false} DepthNeedsMessage(events: seq<Event>, i: nat)
    requires i < |Run(events).resolutions| && Run(events).resolutions[i].depth.Some?
    ensures var r := Run(events).resolutions[i]; Got(Some(r.req), r.depth) in events
    decreases events
  {
    var before, e := events[..|events| - 1], events[|events| - 1];
    var t := Run(before);
    if i < |t.resolutions| {
      assert Run(events).resolutions[i] == t.resolutions[i];
      DepthNeedsMessage(before, i);
    } else {
      assert e == Got(Some(Run(events).resolutions[i].req), Run(events).resolutions[i].depth);
    }
  }
}
