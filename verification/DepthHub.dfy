/** Distribution of depth results to the browsers' event streams (app/routes/depth_events.py). Each
    connection's queue object is named by a number, in order of connecting. */
module DepthHub {
  import opened Options

  const SUB_QUEUE_MAX := 64

  /** A broadcast payload; a session id that is missing or no string is None. */
  datatype Payload<+B> = Payload(sessionId: Option<string>, body: B)

  /** A connection and the queue its generator reads. */
  datatype Stream<+B> = Stream(session: string, queue: seq<Payload<B>>)

  /** The registered stream of each session, and every open stream, registered or replaced. */
  datatype Hub<+B> = Hub(subscribers: map<string, nat>, streams: map<nat, Stream<B>>, next: nat)

  function NewHub<B>(): Hub<B> {
    Hub(map[], map[], 0)
  }

  predicate IsTokenChar(c: char) {
    'a' <= c <= 'z' || 'A' <= c <= 'Z' || '0' <= c <= '9' || c == '-' || c == '_'
  }

  predicate ValidSession(s: string) {
    |s| <= 64 && forall i :: 0 <= i < |s| ==> IsTokenChar(s[i])
  }

  /** A client without a session id shares the `_legacy` bucket. */
  function SessionOf(sessionId: Option<string>): string {
    if sessionId.None? || sessionId.value == "" then "_legacy" else sessionId.value
  }

  function Connect<B>(h: Hub<B>, sessionId: Option<string>): Hub<B> {
    var s := SessionOf(sessionId);
    if ValidSession(s) then Hub(h.subscribers[s := h.next], h.streams[h.next := Stream(s, [])], h.next + 1) else h
  }

  /** A generator ends: it takes its session's registration with it only if that is still its own. */
  function Close<B>(h: Hub<B>, id: nat): Hub<B>
    requires id in h.streams
  {
    var s := h.streams[id].session;
    h.(subscribers := if s in h.subscribers && h.subscribers[s] == id then h.subscribers - {s} else h.subscribers,
       streams := h.streams - {id})
  }

  datatype Outcome = Delivered | NoSessionId | NoSubscriber | QueueFull

  function BroadcastOutcome<B>(h: Hub<B>, p: Payload<B>): Outcome {
    if p.sessionId.None? || p.sessionId.value == "" then NoSessionId
    else if p.sessionId.value !in h.subscribers || h.subscribers[p.sessionId.value] !in h.streams then NoSubscriber
    else if |h.streams[h.subscribers[p.sessionId.value]].queue| >= SUB_QUEUE_MAX then QueueFull
    else Delivered
  }

  function Broadcast<B>(h: Hub<B>, p: Payload<B>): Hub<B> {
    if BroadcastOutcome(h, p) != Delivered then h
    else
      var id := h.subscribers[p.sessionId.value];
      h.(streams := h.streams[id := h.streams[id].(queue := h.streams[id].queue + [p])])
  }

  /** The generator yields its queue's head. */
  function Pull<B>(h: Hub<B>, id: nat): Hub<B>
    requires id in h.streams && h.streams[id].queue != []
  {
    h.(streams := h.streams[id := h.streams[id].(queue := h.streams[id].queue[1..])])
  }

  /** Registered streams are open and registered under their own session; every queue holds only
      payloads for its session, and no more than its maximum. */
  ghost predicate Routed<B>(h: Hub<B>) {
    && (forall id :: id in h.streams ==> id < h.next)
    && (forall s :: s in h.subscribers ==> h.subscribers[s] in h.streams && h.streams[h.subscribers[s]].session == s)
    && (forall id :: id in h.streams ==> |h.streams[id].queue| <= SUB_QUEUE_MAX)
    && (forall id, i :: id in h.streams && 0 <= i < |h.streams[id].queue| ==>
          h.streams[id].queue[i].sessionId == Some(h.streams[id].session))
  }

  class DepthEvents<B> {
    var subscribers: map<string, nat>
    var streams: map<nat, Stream<B>>
    var next: nat

    function State(): Hub<B>
      reads this
    {
      Hub(subscribers, streams, next)
    }

    constructor ()
      ensures State() == NewHub<B>() && Routed(State())
    {
      subscribers, streams, next := map[], map[], 0;
    }

    /** None stands for the 400 answer. */
    method Subscribe(sessionId: Option<string>) returns (id: Option<nat>)
      requires Routed(State())
      modifies this
      ensures Routed(State()) && State() == Connect(old(State()), sessionId)
      ensures id == if ValidSession(SessionOf(sessionId)) then Some(old(next)) else None
    {
      var session := if sessionId.Some? then sessionId.value else "";
      if session == "" {
        session := "_legacy";
      }
      if |session| > 64 || exists i :: 0 <= i < |session| && !IsTokenChar(session[i]) {
        return None;
      }
      id := Some(next);
      streams := streams[next := Stream(session, [])];
      subscribers := subscribers[session := next];
      next := next + 1;
    }

    /** The stream generator's `finally`. */
    method Disconnect(id: nat)
      requires Routed(State()) && id in streams
      modifies this
      ensures Routed(State()) && State() == Close(old(State()), id)
    {
      var session := streams[id].session;
      if session in subscribers && subscribers[session] == id {
        subscribers := subscribers - {session};
      }
      streams := streams - {id};
    }

    method InternalDepthBroadcast(p: Payload<B>) returns (out: Outcome)
      requires Routed(State())
      modifies this
      ensures Routed(State()) && State() == Broadcast(old(State()), p) && out == BroadcastOutcome(old(State()), p)
    {
      if p.sessionId.None? || p.sessionId.value == "" {
        return NoSessionId;
      }
      if p.sessionId.value !in subscribers {
        return NoSubscriber;
      }
      var id := subscribers[p.sessionId.value];
      if |streams[id].queue| >= SUB_QUEUE_MAX {
        return QueueFull;
      }
      streams := streams[id := streams[id].(queue := streams[id].queue + [p])];
      out := Delivered;
    }

    method NextMessage(id: nat) returns (p: Payload<B>)
      requires Routed(State()) && id in streams && streams[id].queue != []
      modifies this
      ensures Routed(State()) && State() == Pull(old(State()), id) && p == old(streams[id].queue[0])
      ensures p.sessionId == Some(old(streams[id].session))
    {
      p := streams[id].queue[0];
      streams := streams[id := streams[id].(queue := streams[id].queue[1..])];
    }
  }
}

module DepthHubLaws {
  import opened Options
  import opened DepthHub

  datatype Event<+B> = Connected(sessionId: Option<string>) | Closed(id: nat) | Sent(payload: Payload<B>) | Pulled(id: nat)

  function Step<B>(h: Hub<B>, e: Event<B>): Hub<B> {
    match e
    case Connected(s) => Connect(h, s)
    case Closed(id) => if id in h.streams then Close(h, id) else h
    case Sent(p) => Broadcast(h, p)
    case Pulled(id) => if id in h.streams && h.streams[id].queue != [] then Pull(h, id) else h
  }

  function Run<B>(events: seq<Event<B>>): Hub<B> {
    if events == [] then NewHub() else Step(Run(events[..|events| - 1]), events[|events| - 1])
  }

  lemma StepRouted<B>(h: Hub<B>, e: Event<B>)
    requires Routed(h)
    ensures Routed(Step(h, e))
  {
    match e
    case Connected(_) =>
    case Closed(_) =>
    case Sent(_) =>
    case Pulled(_) =>
  }

  /** In every run of connections, reconnections, closings and broadcasts no queue ever holds a payload
      whose session id is not the one it was registered under. */
  lemma {:induction false} RunRouted<B>(events: seq<Event<B>>)
    ensures Routed(Run(events)) && forall id :: id in Run(events).streams ==> |Run(events).streams[id].queue| <= 64
    decreases events
  {
    if events != [] {
      RunRouted(events[..|events| - 1]);
      StepRouted(Run(events[..|events| - 1]), events[|events| - 1]);
    }
  }

  /** Letters, digits, hyphen and underscore, at most 64 of them. */
  predicate Token(s: string) {
    |s| <= 64 && forall c :: c in s ==> 'a' <= c <= 'z' || 'A' <= c <= 'Z' || '0' <= c <= '9' || c == '-' || c == '_'
  }

  /** Who may connect, and what that does: a token, or no id at all, gets a new empty stream, registered in
      place of any older one; anything else is refused. */
  lemma ConnectIs<B>(h: Hub<B>, sessionId: Option<string>)
    ensures var s := if sessionId == None || sessionId == Some("") then "_legacy" else sessionId.value;
      if Token(s)
      then Connect(h, sessionId) == Hub(h.subscribers[s := h.next], h.streams[h.next := Stream(s, [])], h.next + 1)
      else Connect(h, sessionId) == h
  {
    var s := SessionOf(sessionId);
    forall i | 0 <= i < |s| ensures s[i] in s {}
    if ValidSession(s) {
      forall c | c in s ensures IsTokenChar(c) {
        var i :| 0 <= i < |s| && s[i] == c;
      }
    }
  }

  // ---------- reconnects ----------

  /** The session's last stream to connect, if any did. */
  function Newest<B>(events: seq<Event<B>>, s: string): Option<nat> {
    if events == [] then None
    else
      var before, e := events[..|events| - 1], events[|events| - 1];
      if e.Connected? && SessionOf(e.sessionId) == s && ValidSession(s) then Some(Run(before).next) else Newest(before, s)
  }

  /** A session is registered exactly as long as its newest stream is open, and to that stream: closing an
      older one never takes a newer one away. */
  lemma {:induction false} NewestStaysRegistered<B>(events: seq<Event<B>>, s: string)
    ensures var h := Run(events);
      && (s in h.subscribers <==> Newest(events, s).Some? && Newest(events, s).value in h.streams)
      && (s in h.subscribers ==> h.subscribers[s] == Newest(events, s).value)
    ensures Newest(events, s).Some? ==>
      var h, id := Run(events), Newest(events, s).value; id < h.next && (id in h.streams ==> h.streams[id].session == s)
    decreases events
  {
    if events != [] {
      var before, e := events[..|events| - 1], events[|events| - 1];
      NewestStaysRegistered(before, s);
      RunRouted(before);
      StepNewest(Run(before), e, s, Newest(before, s));
    }
  }

  predicate Holds<B>(h: Hub<B>, s: string, newest: Option<nat>) {
    && (s in h.subscribers <==> newest.Some? && newest.value in h.streams)
    && (s in h.subscribers ==> h.subscribers[s] == newest.value)
    && (newest.Some? ==> newest.value < h.next && (newest.value in h.streams ==> h.streams[newest.value].session == s))
  }

  lemma StepNewest<B>(h: Hub<B>, e: Event<B>, s: string, newest: Option<nat>)
    requires Routed(h) && Holds(h, s, newest)
    ensures Holds(Step(h, e), s, if e.Connected? && SessionOf(e.sessionId) == s && ValidSession(s) then Some(h.next) else newest)
  {
    match e
    case Connected(_) =>
    case Closed(_) =>
    case Sent(_) =>
    case Pulled(_) =>
  }

  /** A broadcast changes at most one stream: the newest of the session it names, while that is open. */
  lemma BroadcastReachesNewest<B>(events: seq<Event<B>>, p: Payload<B>, id: nat)
    requires id in Run(events).streams
    ensures var h := Run(events);
      Broadcast(h, p).streams[id].queue ==
        if p.sessionId.Some? && p.sessionId.value != "" && Newest(events, p.sessionId.value) == Some(id)
           && |h.streams[id].queue| < 64
        then h.streams[id].queue + [p] else h.streams[id].queue
  {
    if p.sessionId.Some? {
      NewestStaysRegistered(events, p.sessionId.value);
    }
  }

  /** What a broadcast answers: whether the session it names has its newest stream open, and whether that
      stream's queue has room. */
  lemma OutcomeIs<B>(events: seq<Event<B>>, p: Payload<B>)
    ensures BroadcastOutcome(Run(events), p) ==
      if p.sessionId == None || p.sessionId == Some("") then NoSessionId
      else
        match Newest(events, p.sessionId.value)
        case None => NoSubscriber
        case Some(id) =>
          if id !in Run(events).streams then NoSubscriber
          else if |Run(events).streams[id].queue| < 64 then Delivered else QueueFull
  {
    if p.sessionId.Some? { NewestStaysRegistered(events, p.sessionId.value); }
  }

  /** An event that sends to stream `id`: a broadcast that names its session while it is that session's newest,
      open, and has room. */
  function SentBy<B>(before: seq<Event<B>>, e: Event<B>, id: nat): seq<Payload<B>> {
    var h := Run(before);
    if e.Sent? && e.payload.sessionId.Some? && e.payload.sessionId.value != ""
       && Newest(before, e.payload.sessionId.value) == Some(id) && id in h.streams && |h.streams[id].queue| < 64
    then [e.payload] else []
  }

  function GivenBy<B>(h: Hub<B>, e: Event<B>, id: nat): seq<Payload<B>> {
    if e == Pulled(id) && id in h.streams && h.streams[id].queue != [] then [h.streams[id].queue[0]] else []
  }

  /** What stream `id` was sent, in order. */
  function SentTo<B>(events: seq<Event<B>>, id: nat): seq<Payload<B>> {
    if events == [] then []
    else SentTo(events[..|events| - 1], id) + SentBy(events[..|events| - 1], events[|events| - 1], id)
  }

  /** What its client was given, in order. */
  function GivenTo<B>(events: seq<Event<B>>, id: nat): seq<Payload<B>> {
    if events == [] then []
    else GivenTo(events[..|events| - 1], id) + GivenBy(Run(events[..|events| - 1]), events[|events| - 1], id)
  }

  lemma QueueStep<B>(before: seq<Event<B>>, e: Event<B>, id: nat)
    requires id in Run(before).streams && id in Step(Run(before), e).streams
    ensures Run(before).streams[id].queue + SentBy(before, e, id)
      == GivenBy(Run(before), e, id) + Step(Run(before), e).streams[id].queue
  {
    RunRouted(before);
    if e.Sent? { BroadcastReachesNewest(before, e.payload, id); }
  }

  lemma NewStream<B>(h: Hub<B>, e: Event<B>, id: nat)
    requires Routed(h) && id !in h.streams
    ensures id in Step(h, e).streams ==> id == h.next && Step(h, e).streams[id].queue == []
    ensures h.next <= Step(h, e).next
  {
  }

  lemma {:induction false} NothingBefore<B>(events: seq<Event<B>>, id: nat)
    requires id >= Run(events).next
    ensures SentTo(events, id) == [] && GivenTo(events, id) == []
    decreases events
  {
    if events != [] {
      RunRouted(events[..|events| - 1]);
      NewStream(Run(events[..|events| - 1]), events[|events| - 1], id);
      NothingBefore(events[..|events| - 1], id);
    }
  }

  lemma Regrouped<T>(sent: seq<T>, given: seq<T>, queue: seq<T>, more: seq<T>, taken: seq<T>, rest: seq<T>)
    requires sent == given + queue && queue + more == taken + rest
    ensures sent + more == (given + taken) + rest
  {
    assert sent + more == given + (queue + more);
    assert given + (taken + rest) == (given + taken) + rest;
  }

  /** An open stream has given its client what it was sent, in that order, but for what still waits. */
  lemma {:induction false} GivenInOrder<B>(events: seq<Event<B>>, id: nat)
    requires id in Run(events).streams
    ensures SentTo(events, id) == GivenTo(events, id) + Run(events).streams[id].queue
    decreases events
  {
    var before, e := events[..|events| - 1], events[|events| - 1];
    var h, n := Run(before), Run(events);
    assert n == Step(h, e);
    RunRouted(before);
    if id in h.streams {
      GivenInOrder(before, id);
      QueueStep(before, e, id);
      Regrouped(SentTo(before, id), GivenTo(before, id), h.streams[id].queue,
                SentBy(before, e, id), GivenBy(h, e, id), n.streams[id].queue);
    } else {
      NewStream(h, e, id);
      NothingBefore(before, id);
      assert SentBy(before, e, id) == [] && GivenBy(h, e, id) == [];
    }
  }

  /** The shared bucket is a session like any other: a query that names it is answered there. */
  lemma LegacyCanReceive<B>(b: B)
    ensures var h := Run([Connected(None), Sent(Payload(Some("_legacy"), b))]);
      0 in h.streams && h.streams[0] == Stream("_legacy", [Payload(Some("_legacy"), b)])
  {
    var e: Event<B>, f := Connected(None), Sent(Payload(Some("_legacy"), b));
    assert [e, f][..1] == [e] && [e][..0] == [];
    assert ValidSession("_legacy");
    assert Run([e]) == Connect(NewHub(), None);
  }
}
