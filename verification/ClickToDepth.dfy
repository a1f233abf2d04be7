/** The click-to-depth round trip: the tabs (templates/depth_features.js), the relay's `depth_query`
    topic (textroom_relay.py), its sink, and the event streams (app/routes/depth_events.py), as steps
    over one state. Every network in between may lose, repeat and reorder. */
module ClickToDepth {
  import opened Options
  import R = Relay
  import RL = RelayLaws
  import T = DepthTab
  import H = DepthHub

  datatype Query = Query(req: T.ReqId, x: real, y: real)

  /** The sink echoes the request id; a depth that is no number is None. */
  datatype Answer = Answer(req: T.ReqId, depth: Option<real>)

  type Msg = R.Msg<Query>
  type Reply = R.Reply<Answer>
  type Payload = H.Payload<Answer>

  /** Tabs by session id; the message each click of each tab is for; messages under way to the relay;
      the topic; what the sink answered to which message; replies under way to the hub; the hub; and
      payloads under way to the client that opened a stream under that session id. */
  datatype System = System(
    tabs: map<string, T.Tab>,
    clicks: map<(string, T.ReqId), Msg>,
    uplink: set<Msg>,
    topic: R.Topic<Query, Answer>,
    answers: set<(Msg, Option<real>)>,
    downlink: set<Reply>,
    hub: H.Hub<Answer>,
    wire: set<(string, Payload)>)

  datatype Event =
    | Click(tab: string, ms: int, x: real, y: real, publishes: bool)
    | TimerFires(tab: string, req: T.ReqId)
    | OtherPublisher(msg: Msg)  // any client but the tabs, so not under a tab's session id
    | Hooked(msg: Msg)
    | WorkerTakes(now: real)
    | SinkAnswers(now: real, depth: Option<real>)
    | SinkFails(now: real)
    | PublishEnds
    | Broadcast(reply: Reply)
    | Connect(sessionId: Option<string>)
    | Close(stream: nat)
    | Pull(stream: nat)
    | Receive(tab: string, payload: Payload)

  function Start(sessions: set<string>): System {
    System(map s | s in sessions :: T.NewTab(), map[], {}, R.Fresh(), {}, {}, H.NewHub(), {})
  }

  /** `Number(x.toFixed(2))`: the nearest hundredth, ties away from zero. */
  function ToFixed2(x: real): real {
    if x < 0.0 then -((0.5 - 100.0 * x).Floor as real / 100.0) else (100.0 * x + 0.5).Floor as real / 100.0
  }

  /** A published message carries the click's own data, rounded, under the tab's session id. */
  function MessageOf(tab: string, r: T.ReqId, x: real, y: real): Msg {
    R.Msg(R.Num(r.ms), Some(tab), Query(r, ToFixed2(x), ToFixed2(y)))
  }

  function AfterClick(s: System, tab: string, ms: int, x: real, y: real, publishes: bool): System
    requires tab in s.tabs
  {
    var r := T.ReqId(ms, s.tabs[tab].counter);
    var m := MessageOf(tab, r, x, y);
    s.(tabs := s.tabs[tab := T.Click(s.tabs[tab], ms, publishes)],
       clicks := s.clicks[(tab, r) := m],
       uplink := if publishes then s.uplink + {m} else s.uplink)
  }

  function AfterAnswer(u: RL.Setup, s: System, now: real, depth: Option<real>): System
    requires s.topic.worker.Posting?
  {
    var m := s.topic.worker.msg;
    var topic := R.Replied(u.config, s.topic, now, R.Answer200(R.Object(R.Reply(None, Answer(m.body.req, depth)))));
    s.(topic := topic, answers := s.answers + {(m, depth)},
       downlink :=
         if topic.worker.Publishing? && topic.worker.reply.Some? then s.downlink + {topic.worker.reply.value}
         else s.downlink)
  }

  function AfterPull(s: System, id: nat): System
    requires id in s.hub.streams && s.hub.streams[id].queue != []
  {
    s.(hub := H.Pull(s.hub, id), wire := s.wire + {(s.hub.streams[id].session, s.hub.streams[id].queue[0])})
  }

  /** An event that cannot happen in a state leaves it as it is. */
  function Step(u: RL.Setup, s: System, e: Event): System {
    match e
    case Click(tab, ms, x, y, publishes) => if tab in s.tabs then AfterClick(s, tab, ms, x, y, publishes) else s
    case TimerFires(tab, r) =>
      if tab in s.tabs && r in s.tabs[tab].timers then s.(tabs := s.tabs[tab := T.Settle(s.tabs[tab], r, None)]) else s
    case OtherPublisher(m) => if m.sessionId.Some? && m.sessionId.value in s.tabs then s else s.(uplink := s.uplink + {m})
    case Hooked(m) => if m in s.uplink then s.(topic := R.Hook(u.config, u.queueMax, s.topic, m)) else s
    case WorkerTakes(now) => if R.Ready(s.topic) then s.(topic := R.Take(u.config, u.acks, s.topic, now)) else s
    case SinkAnswers(now, depth) => if s.topic.worker.Posting? then AfterAnswer(u, s, now, depth) else s
    case SinkFails(now) =>
      if s.topic.worker.Posting? then s.(topic := R.Replied(u.config, s.topic, now, R.HttpError)) else s
    case PublishEnds => if s.topic.worker.Publishing? then s.(topic := R.Finish(s.topic)) else s
    case Broadcast(r) => if r in s.downlink then s.(hub := H.Broadcast(s.hub, H.Payload(r.sessionId, r.body))) else s
    case Connect(id) => s.(hub := H.Connect(s.hub, id))
    case Close(id) => if id in s.hub.streams then s.(hub := H.Close(s.hub, id)) else s
    case Pull(id) => if id in s.hub.streams && s.hub.streams[id].queue != [] then AfterPull(s, id) else s
    case Receive(tab, p) =>
      if tab in s.tabs && (tab, p) in s.wire
      then s.(tabs := s.tabs[tab := T.Receive(s.tabs[tab], Some(p.body.req), p.body.depth)]) else s
  }

  function Run(u: RL.Setup, sessions: set<string>, events: seq<Event>): System {
    if events == [] then Start(sessions) else Step(u, Run(u, sessions, events[..|events| - 1]), events[|events| - 1])
  }
}

module ClickToDepthLaws {
  import opened Options
  import R = Relay
  import RL = RelayLaws
  import T = DepthTab
  import H = DepthHub
  import HL = DepthHubLaws
  import opened ClickToDepth

  /** A message under a tab's session id is that tab's own message for that click. */
  predicate OwnMessage(s: System, m: Msg) {
    m.sessionId.Some? && m.sessionId.value in s.tabs ==>
      (m.sessionId.value, m.body.req) in s.clicks && s.clicks[(m.sessionId.value, m.body.req)] == m
  }

  /** What goes back under a tab's session id is what the sink answered to that tab's own message for
      the click it names. */
  predicate Genuine(s: System, sessionId: Option<string>, a: Answer) {
    sessionId.Some? && sessionId.value in s.tabs ==>
      (sessionId.value, a.req) in s.clicks && (s.clicks[(sessionId.value, a.req)], a.depth) in s.answers
  }

  ghost predicate TabsSettled(s: System) {
    && (forall t :: t in s.tabs ==> T.Settled(s.tabs[t]))
    && (forall t, r :: (t, r) in s.clicks ==> t in s.tabs && r.n < s.tabs[t].counter)
  }

  ghost predicate UpwardsOwn(s: System) {
    && (forall m :: m in s.uplink ==> OwnMessage(s, m))
    && (forall m :: m in s.topic.queue ==> m in s.uplink)
    && (s.topic.worker.Posting? ==> s.topic.worker.msg in s.uplink)
  }

  ghost predicate DownwardsGenuine(s: System) {
    && (forall r :: r in s.downlink ==> Genuine(s, r.sessionId, r.body))
    && (forall id, i :: id in s.hub.streams && 0 <= i < |s.hub.streams[id].queue| ==>
          Genuine(s, Some(s.hub.streams[id].session), s.hub.streams[id].queue[i].body))
    && (forall t, p :: (t, p) in s.wire ==> Genuine(s, Some(t), p.body))
  }

  ghost predicate ResolvedGenuinely(s: System) {
    forall t, i :: t in s.tabs && 0 <= i < |s.tabs[t].resolutions| && s.tabs[t].resolutions[i].depth.Some? ==>
      Genuine(s, Some(t), Answer(s.tabs[t].resolutions[i].req, s.tabs[t].resolutions[i].depth))
  }

  ghost predicate Sound(s: System) {
    TabsSettled(s) && H.Routed(s.hub) && UpwardsOwn(s) && DownwardsGenuine(s) && ResolvedGenuinely(s)
  }

  // ---------- what grows ----------

  /** The same tabs, and every click and every answer still there. */
  ghost predicate Extends(s: System, t: System) {
    && s.tabs.Keys == t.tabs.Keys
    && (forall k :: k in s.clicks ==> k in t.clicks && t.clicks[k] == s.clicks[k])
    && s.answers <= t.answers
  }

  lemma OwnGrows(s: System, t: System, m: Msg)
    requires Extends(s, t) && OwnMessage(s, m)
    ensures OwnMessage(t, m)
  {
  }

  lemma GenuineGrows(s: System, t: System, sessionId: Option<string>, a: Answer)
    requires Extends(s, t) && Genuine(s, sessionId, a)
    ensures Genuine(t, sessionId, a)
  {
  }

  lemma UpwardsGrow(s: System, t: System)
    requires UpwardsOwn(s) && Extends(s, t) && t.topic == s.topic && s.uplink <= t.uplink
    requires forall m :: m in t.uplink - s.uplink ==> OwnMessage(t, m)
    ensures UpwardsOwn(t)
  {
    forall m | m in t.uplink ensures OwnMessage(t, m) {
      if m in s.uplink { OwnGrows(s, t, m); }
    }
  }

  lemma DownwardsGrow(s: System, t: System)
    requires DownwardsGenuine(s) && Extends(s, t) && t.hub == s.hub && t.wire == s.wire && s.downlink <= t.downlink
    requires forall r :: r in t.downlink - s.downlink ==> Genuine(t, r.sessionId, r.body)
    ensures DownwardsGenuine(t)
  {
    forall r | r in t.downlink ensures Genuine(t, r.sessionId, r.body) {
      if r in s.downlink { GenuineGrows(s, t, r.sessionId, r.body); }
    }
  }

  lemma ResolvedGrow(s: System, t: System)
    requires ResolvedGenuinely(s) && Extends(s, t) && t.tabs == s.tabs
    ensures ResolvedGenuinely(t)
  {
  }

  // ---------- the tabs ----------

  /** Every resolution added is with null, or with what a genuine payload carries. */
  ghost predicate AddsGenuinely(t: System, tab: string, before: seq<T.Resolution>, after: seq<T.Resolution>) {
    && before <= after
    && forall i :: |before| <= i < |after| && after[i].depth.Some? ==> Genuine(t, Some(tab), Answer(after[i].req, after[i].depth))
  }

  lemma TabStep(s: System, t: System, tab: string)
    requires ResolvedGenuinely(s) && Extends(s, t) && tab in s.tabs
    requires forall x :: x in s.tabs && x != tab ==> t.tabs[x] == s.tabs[x]
    requires AddsGenuinely(t, tab, s.tabs[tab].resolutions, t.tabs[tab].resolutions)
    ensures ResolvedGenuinely(t)
  {
    forall x, i | x in t.tabs && 0 <= i < |t.tabs[x].resolutions| && t.tabs[x].resolutions[i].depth.Some?
      ensures Genuine(t, Some(x), Answer(t.tabs[x].resolutions[i].req, t.tabs[x].resolutions[i].depth))
    {
      if x != tab || i < |s.tabs[x].resolutions| {
        assert t.tabs[x].resolutions[i] == s.tabs[x].resolutions[i];
        GenuineGrows(s, t, Some(x), Answer(s.tabs[x].resolutions[i].req, s.tabs[x].resolutions[i].depth));
      }
    }
  }

  /** A step of one tab, perhaps with a message published. */
  lemma TabSound(s: System, t: System, tab: string)
    requires Sound(s) && tab in s.tabs && Extends(s, t) && TabsSettled(t)
    requires t.topic == s.topic && t.hub == s.hub && t.wire == s.wire && t.downlink == s.downlink
    requires s.uplink <= t.uplink && forall m :: m in t.uplink - s.uplink ==> OwnMessage(t, m)
    requires forall x :: x in s.tabs && x != tab ==> t.tabs[x] == s.tabs[x]
    requires AddsGenuinely(t, tab, s.tabs[tab].resolutions, t.tabs[tab].resolutions)
    ensures Sound(t)
  {
    TabStep(s, t, tab);
    UpwardsGrow(s, t);
    DownwardsGrow(s, t);
  }

  /** A settled tab in place of another that had asked no more. */
  lemma SettledTab(s: System, tab: string, after: T.Tab)
    requires TabsSettled(s) && tab in s.tabs && T.Settled(after) && after.counter == s.tabs[tab].counter
    ensures TabsSettled(s.(tabs := s.tabs[tab := after])) && Extends(s, s.(tabs := s.tabs[tab := after]))
  {
  }

  lemma ClickAdds(s: System, tab: string, before: T.Tab, ms: int, publishes: bool)
    ensures AddsGenuinely(s, tab, before.resolutions, T.Click(before, ms, publishes).resolutions)
  {
  }

  lemma ClickSound(s: System, tab: string, ms: int, x: real, y: real, publishes: bool)
    requires Sound(s) && tab in s.tabs
    ensures Sound(AfterClick(s, tab, ms, x, y, publishes))
  {
    var t, r := AfterClick(s, tab, ms, x, y, publishes), T.ReqId(ms, s.tabs[tab].counter);
    ClickAdds(t, tab, s.tabs[tab], ms, publishes);
    ClickExtends(s, tab, ms, x, y, publishes);
    AskSound(s, t, tab, T.Click(s.tabs[tab], ms, publishes), r, MessageOf(tab, r, x, y));
  }

  /** A tab asks: its message is recorded for that click, and perhaps published. */
  lemma AskSound(s: System, t: System, tab: string, after: T.Tab, r: T.ReqId, m: Msg)
    requires Sound(s) && tab in s.tabs && Extends(s, t) && TabsSettled(t)
    requires t == s.(tabs := s.tabs[tab := after], clicks := s.clicks[(tab, r) := m], uplink := t.uplink)
    requires s.uplink <= t.uplink <= s.uplink + {m} && OwnMessage(t, m)
    requires AddsGenuinely(t, tab, s.tabs[tab].resolutions, after.resolutions)
    ensures Sound(t)
  {
    forall x | x in t.uplink - s.uplink ensures OwnMessage(t, x) {
      assert x == m;
    }
    assert t.tabs[tab] == after;
    TabSound(s, t, tab);
  }

  lemma ClickExtends(s: System, tab: string, ms: int, x: real, y: real, publishes: bool)
    requires TabsSettled(s) && tab in s.tabs
    ensures Extends(s, AfterClick(s, tab, ms, x, y, publishes))
    ensures TabsSettled(AfterClick(s, tab, ms, x, y, publishes))
    ensures OwnMessage(AfterClick(s, tab, ms, x, y, publishes), MessageOf(tab, T.ReqId(ms, s.tabs[tab].counter), x, y))
  {
    T.ClickSettled(s.tabs[tab], ms, publishes);
    var t := AfterClick(s, tab, ms, x, y, publishes);
    assert T.Pruned(s.tabs[tab]).counter == s.tabs[tab].counter;
    assert t.tabs[tab].counter == s.tabs[tab].counter + 1;
    assert (tab, T.ReqId(ms, s.tabs[tab].counter)) !in s.clicks;
  }

  lemma SettleIs(t: T.Tab, r: T.ReqId, depth: Option<real>)
    requires T.Settled(t) && r in t.pending
    ensures var after := T.Settle(t, r, depth);
      T.Settled(after) && after.counter == t.counter && after.resolutions == t.resolutions + [T.Resolution(r, depth)]
  {
    T.SettleSettled(t, r, depth);
  }

  lemma SettleAdds(s: System, t: System, tab: string, before: seq<T.Resolution>, r: T.ReqId, depth: Option<real>)
    requires Extends(s, t) && (depth.Some? ==> Genuine(s, Some(tab), Answer(r, depth)))
    ensures AddsGenuinely(t, tab, before, before + [T.Resolution(r, depth)])
  {
    if depth.Some? { GenuineGrows(s, t, Some(tab), Answer(r, depth)); }
  }

  lemma SettleSound(s: System, tab: string, r: T.ReqId, depth: Option<real>)
    requires Sound(s) && tab in s.tabs && r in s.tabs[tab].pending
    requires depth.Some? ==> Genuine(s, Some(tab), Answer(r, depth))
    ensures Sound(s.(tabs := s.tabs[tab := T.Settle(s.tabs[tab], r, depth)]))
  {
    var after := T.Settle(s.tabs[tab], r, depth);
    SettleIs(s.tabs[tab], r, depth);
    SettledTab(s, tab, after);
    var t := s.(tabs := s.tabs[tab := after]);
    SettleAdds(s, t, tab, s.tabs[tab].resolutions, r, depth);
    TabSound(s, t, tab);
  }

  lemma TimerSound(s: System, tab: string, r: T.ReqId)
    requires Sound(s) && tab in s.tabs && r in s.tabs[tab].timers
    ensures Sound(s.(tabs := s.tabs[tab := T.Settle(s.tabs[tab], r, None)]))
  {
    SettleSound(s, tab, r, None);
  }

  lemma ReceiveSound(s: System, tab: string, p: Payload)
    requires Sound(s) && tab in s.tabs && (tab, p) in s.wire
    ensures Sound(s.(tabs := s.tabs[tab := T.Receive(s.tabs[tab], Some(p.body.req), p.body.depth)]))
  {
    if p.body.req in s.tabs[tab].pending {
      assert Genuine(s, Some(tab), p.body);
      assert Answer(p.body.req, p.body.depth) == p.body;
      SettleSound(s, tab, p.body.req, p.body.depth);
    } else {
      assert s.tabs[tab := s.tabs[tab]] == s.tabs;
    }
  }

  // ---------- the relay and its sink ----------

  lemma OtherSound(s: System, m: Msg)
    requires Sound(s) && !(m.sessionId.Some? && m.sessionId.value in s.tabs)
    ensures Sound(s.(uplink := s.uplink + {m}))
  {
    var t := s.(uplink := s.uplink + {m});
    UpwardsGrow(s, t);
    DownwardsGrow(s, t);
    ResolvedGrow(s, t);
  }

  /** A step of the topic that only loses messages or takes one from the uplink. */
  lemma TopicSound(s: System, topic: R.Topic<Query, Answer>)
    requires Sound(s)
    requires forall m :: m in topic.queue ==> m in s.uplink
    requires topic.worker.Posting? ==> topic.worker.msg in s.uplink
    ensures Sound(s.(topic := topic))
  {
    var t := s.(topic := topic);
    assert Extends(s, t);
    forall m | m in t.uplink ensures OwnMessage(t, m) { OwnGrows(s, t, m); }
    DownwardsGrow(s, t);
    ResolvedGrow(s, t);
  }

  lemma HookQueue(u: RL.Setup, topic: R.Topic<Query, Answer>, m: Msg)
    ensures var after := R.Hook(u.config, u.queueMax, topic, m);
      after.worker == topic.worker && forall x :: x in after.queue ==> x in topic.queue || x == m
  {
  }

  lemma AnswerTopic(u: RL.Setup, topic: R.Topic<Query, Answer>, now: real, r: R.Result<Answer>)
    requires topic.worker.Posting?
    ensures var after := R.Replied(u.config, topic, now, r);
      && after.queue == topic.queue && !after.worker.Posting?
      && (after.worker.Publishing? ==>
            r.Answer200? && R.Published(topic.worker.msg, r.json) == Some(after.worker.reply))
  {
  }

  lemma AnswerSound(u: RL.Setup, s: System, now: real, depth: Option<real>)
    requires Sound(s) && s.topic.worker.Posting?
    ensures Sound(AfterAnswer(u, s, now, depth))
  {
    var t, m := AfterAnswer(u, s, now, depth), s.topic.worker.msg;
    AnswerTopic(u, s.topic, now, R.Answer200(R.Object(R.Reply(None, Answer(m.body.req, depth)))));
    assert Extends(s, t);
    assert OwnMessage(s, m);
    forall r | r in t.downlink - s.downlink ensures Genuine(t, r.sessionId, r.body) {
      assert r == R.Reattached(m, R.Reply(None, Answer(m.body.req, depth)));
    }
    forall x | x in t.uplink ensures OwnMessage(t, x) { OwnGrows(s, t, x); }
    DownwardsGrow(s, t);
    ResolvedGrow(s, t);
  }

  // ---------- the hub ----------

  lemma HubSound(s: System, hub: H.Hub<Answer>, wire: set<(string, Payload)>)
    requires Sound(s) && H.Routed(hub)
    requires forall id, i :: id in hub.streams && 0 <= i < |hub.streams[id].queue| ==>
      Genuine(s, Some(hub.streams[id].session), hub.streams[id].queue[i].body)
    requires forall t, p :: (t, p) in wire ==> Genuine(s, Some(t), p.body)
    ensures Sound(s.(hub := hub, wire := wire))
  {
    var t := s.(hub := hub, wire := wire);
    assert Extends(s, t);
    UpwardsGrow(s, t);
    ResolvedGrow(s, t);
    forall r | r in t.downlink ensures Genuine(t, r.sessionId, r.body) { GenuineGrows(s, t, r.sessionId, r.body); }
    forall id, i | id in hub.streams && 0 <= i < |hub.streams[id].queue|
      ensures Genuine(t, Some(hub.streams[id].session), hub.streams[id].queue[i].body)
    {
      GenuineGrows(s, t, Some(hub.streams[id].session), hub.streams[id].queue[i].body);
    }
    forall x, p | (x, p) in wire ensures Genuine(t, Some(x), p.body) { GenuineGrows(s, t, Some(x), p.body); }
  }

  lemma BroadcastSound(s: System, r: Reply)
    requires Sound(s) && r in s.downlink
    ensures Sound(s.(hub := H.Broadcast(s.hub, H.Payload(r.sessionId, r.body))))
  {
    var p := H.Payload(r.sessionId, r.body);
    var hub := H.Broadcast(s.hub, p);
    HL.StepRouted(s.hub, HL.Sent(p));
    HubSound(s, hub, s.wire);
  }

  lemma StreamsSound(s: System, e: HL.Event<Answer>)
    requires Sound(s) && (e.Connected? || e.Closed?)
    ensures Sound(s.(hub := HL.Step(s.hub, e)))
  {
    HL.StepRouted(s.hub, e);
    HubSound(s, HL.Step(s.hub, e), s.wire);
  }

  lemma PullSound(s: System, id: nat)
    requires Sound(s) && id in s.hub.streams && s.hub.streams[id].queue != []
    ensures Sound(AfterPull(s, id))
  {
    var t := AfterPull(s, id);
    HL.StepRouted(s.hub, HL.Pulled(id));
    assert Genuine(s, Some(s.hub.streams[id].session), s.hub.streams[id].queue[0].body);
    forall i | 0 <= i < |t.hub.streams[id].queue| ensures t.hub.streams[id].queue[i] == s.hub.streams[id].queue[i + 1] {}
    HubSound(s, t.hub, t.wire);
  }

  // ---------- runs ----------

  predicate OfTab(e: Event) {
    e.Click? || e.TimerFires? || e.OtherPublisher? || e.Receive?
  }

  predicate OfRelay(e: Event) {
    e.Hooked? || e.WorkerTakes? || e.SinkAnswers? || e.SinkFails? || e.PublishEnds?
  }

  lemma TabStepSound(u: RL.Setup, s: System, e: Event)
    requires Sound(s) && OfTab(e)
    ensures Sound(Step(u, s, e))
  {
    match e
    case Click(tab, ms, x, y, publishes) => if tab in s.tabs { ClickSound(s, tab, ms, x, y, publishes); }
    case TimerFires(tab, r) => if tab in s.tabs && r in s.tabs[tab].timers { TimerSound(s, tab, r); }
    case OtherPublisher(m) => if !(m.sessionId.Some? && m.sessionId.value in s.tabs) { OtherSound(s, m); }
    case Receive(tab, p) => if tab in s.tabs && (tab, p) in s.wire { ReceiveSound(s, tab, p); }
  }

  lemma RelayStepSound(u: RL.Setup, s: System, e: Event)
    requires Sound(s) && OfRelay(e)
    ensures Sound(Step(u, s, e))
  {
    match e
    case Hooked(m) =>
      if m in s.uplink {
        HookQueue(u, s.topic, m);
        TopicSound(s, R.Hook(u.config, u.queueMax, s.topic, m));
      }
    case WorkerTakes(now) =>
      if R.Ready(s.topic) {
        RL.TakeKeepsQueue(u, s.topic, now);
        TopicSound(s, R.Take(u.config, u.acks, s.topic, now));
      }
    case SinkAnswers(now, depth) => if s.topic.worker.Posting? { AnswerSound(u, s, now, depth); }
    case SinkFails(now) =>
      if s.topic.worker.Posting? {
        AnswerTopic(u, s.topic, now, R.HttpError);
        TopicSound(s, R.Replied(u.config, s.topic, now, R.HttpError));
      }
    case PublishEnds => if s.topic.worker.Publishing? { TopicSound(s, R.Finish(s.topic)); }
  }

  lemma HubStepSound(u: RL.Setup, s: System, e: Event)
    requires Sound(s) && !OfTab(e) && !OfRelay(e)
    ensures Sound(Step(u, s, e))
  {
    match e
    case Broadcast(r) => if r in s.downlink { BroadcastSound(s, r); }
    case Connect(id) => StreamsSound(s, HL.Connected(id));
    case Close(id) => if id in s.hub.streams { StreamsSound(s, HL.Closed(id)); }
    case Pull(id) => if id in s.hub.streams && s.hub.streams[id].queue != [] { PullSound(s, id); }
  }

  lemma StepSound(u: RL.Setup, s: System, e: Event)
    requires Sound(s)
    ensures Sound(Step(u, s, e))
  {
    if OfTab(e) { TabStepSound(u, s, e); } else if OfRelay(e) { RelayStepSound(u, s, e); } else { HubStepSound(u, s, e); }
  }

  lemma {:induction false} RunSound(u: RL.Setup, sessions: set<string>, events: seq<Event>)
    ensures Sound(Run(u, sessions, events))
    decreases events
  {
    if events != [] {
      RunSound(u, sessions, events[..|events| - 1]);
      StepSound(u, Run(u, sessions, events[..|events| - 1]), events[|events| - 1]);
    }
  }

  // ---------- main results ----------

  /** The `c`-th event is the click of `tab` that got request id `r`. */
  predicate ClickedAt(u: RL.Setup, sessions: set<string>, events: seq<Event>, c: nat, tab: string, r: T.ReqId) {
    && c < |events| && events[c].Click? && events[c].tab == tab
    && var before := Run(u, sessions, events[..c]);
       tab in before.tabs && r == T.ReqId(events[c].ms, before.tabs[tab].counter)
  }

  /** The `k`-th event is the sink's answer `depth` to message `m`, which the relay was posting. */
  predicate AnsweredAt(u: RL.Setup, sessions: set<string>, events: seq<Event>, k: nat, m: Msg, depth: Option<real>) {
    && k < |events| && events[k].SinkAnswers? && events[k].depth == depth
    && Run(u, sessions, events[..k]).topic.worker == R.Posting(m)
  }

  lemma EarlierClick(u: RL.Setup, sessions: set<string>, events: seq<Event>, e: Event, c: nat, tab: string, r: T.ReqId)
    requires ClickedAt(u, sessions, events, c, tab, r)
    ensures ClickedAt(u, sessions, events + [e], c, tab, r)
  {
    assert (events + [e])[..c] == events[..c];
  }

  lemma EarlierAnswer(u: RL.Setup, sessions: set<string>, events: seq<Event>, e: Event, k: nat, m: Msg, depth: Option<real>)
    requires AnsweredAt(u, sessions, events, k, m, depth)
    ensures AnsweredAt(u, sessions, events + [e], k, m, depth)
  {
    assert (events + [e])[..k] == events[..k];
  }

  lemma {:induction false} ClicksWereMade(u: RL.Setup, sessions: set<string>, events: seq<Event>, tab: string, r: T.ReqId) returns (c: nat)
    requires (tab, r) in Run(u, sessions, events).clicks
    ensures ClickedAt(u, sessions, events, c, tab, r)
    ensures Run(u, sessions, events).clicks[(tab, r)] == MessageOf(tab, r, events[c].x, events[c].y)
    decreases events
  {
    var before, e := events[..|events| - 1], events[|events| - 1];
    var s := Run(u, sessions, before);
    assert before + [e] == events;
    RunSound(u, sessions, before);
    if (tab, r) in s.clicks {
      c := ClicksWereMade(u, sessions, before, tab, r);
      EarlierClick(u, sessions, before, e, c, tab, r);
      StepKeepsClicks(u, s, e, tab, r);
    } else {
      c := |before|;
    }
  }

  lemma StepKeepsClicks(u: RL.Setup, s: System, e: Event, tab: string, r: T.ReqId)
    requires Sound(s) && (tab, r) in s.clicks
    ensures (tab, r) in Step(u, s, e).clicks && Step(u, s, e).clicks[(tab, r)] == s.clicks[(tab, r)]
  {
    if e.Click? && e.tab in s.tabs { ClickExtends(s, e.tab, e.ms, e.x, e.y, e.publishes); }
  }

  lemma {:induction false} AnswersWereGiven(u: RL.Setup, sessions: set<string>, events: seq<Event>, m: Msg, depth: Option<real>) returns (k: nat)
    requires (m, depth) in Run(u, sessions, events).answers
    ensures AnsweredAt(u, sessions, events, k, m, depth)
    decreases events
  {
    var before, e := events[..|events| - 1], events[|events| - 1];
    assert before + [e] == events;
    if (m, depth) in Run(u, sessions, before).answers {
      k := AnswersWereGiven(u, sessions, before, m, depth);
      EarlierAnswer(u, sessions, before, e, k, m, depth);
    } else {
      k := |before|;
    }
  }

  /** In every interleaving of clicks, timeouts, prunes, overflows, forwards, broadcasts and reconnects,
      with every network losing, repeating and reordering, whatever the relay's settings: a number that
      resolves a click is the sink's answer to a message of that very tab and click, with the click's own
      time and its coordinates to within half a hundredth. */
  lemma ClickGetsItsAnswer(u: RL.Setup, sessions: set<string>, events: seq<Event>, tab: string, i: nat)
      returns (c: nat, k: nat, m: Msg)
    requires var tabs := Run(u, sessions, events).tabs;
      tab in tabs && i < |tabs[tab].resolutions| && tabs[tab].resolutions[i].depth.Some?
    ensures var got := Run(u, sessions, events).tabs[tab].resolutions[i];
      && ClickedAt(u, sessions, events, c, tab, got.req)
      && AnsweredAt(u, sessions, events, k, m, got.depth)
      && m.sessionId == Some(tab) && m.body.req == got.req && m.ts == R.Num(events[c].ms)
      && -0.005 <= m.body.x - events[c].x <= 0.005 && -0.005 <= m.body.y - events[c].y <= 0.005
    ensures m == MessageOf(tab, m.body.req, events[c].x, events[c].y)
  {
    var s := Run(u, sessions, events);
    var got := s.tabs[tab].resolutions[i];
    RunSound(u, sessions, events);
    assert Genuine(s, Some(tab), Answer(got.req, got.depth));
    m := s.clicks[(tab, got.req)];
    c := ClicksWereMade(u, sessions, events, tab, got.req);
    k := AnswersWereGiven(u, sessions, events, m, got.depth);
    PublishedNearby(events[c].x, 0);
    PublishedNearby(events[c].y, 0);
  }

  /** What is published is within half a hundredth of the click, and what already has two decimals is
      published as it is. */
  lemma PublishedNearby(x: real, n: int)
    ensures -0.005 <= ToFixed2(x) - x <= 0.005
    ensures ToFixed2(n as real / 100.0) == n as real / 100.0
  {
    var f := if x < 0.0 then (0.5 - 100.0 * x).Floor else (100.0 * x + 0.5).Floor;
    assert f as real / 100.0 * 100.0 == f as real;
    var q := n as real / 100.0;
    assert 100.0 * q == n as real;
    assert q < 0.0 <==> n < 0;
    assert n >= 0 ==> (100.0 * q + 0.5).Floor == n;
    assert n < 0 ==> (0.5 - 100.0 * q).Floor == 0 - n;
  }

  /** No stream's queue ever holds a payload of another session, and nothing leaves a queue but to the
      client that opened the stream under that session. */
  lemma QueuesHoldTheirOwn(u: RL.Setup, sessions: set<string>, events: seq<Event>, id: nat, i: nat)
    requires var h := Run(u, sessions, events).hub; id in h.streams && i < |h.streams[id].queue|
    ensures var s := Run(u, sessions, events);
      && s.hub.streams[id].queue[i].sessionId == Some(s.hub.streams[id].session)
      && Genuine(s, s.hub.streams[id].queue[i].sessionId, s.hub.streams[id].queue[i].body)
  {
    RunSound(u, sessions, events);
  }

  lemma Snoc(u: RL.Setup, sessions: set<string>, events: seq<Event>, e: Event)
    ensures Run(u, sessions, events + [e]) == Step(u, Run(u, sessions, events), e)
  {
    assert (events + [e])[..|events|] == events;
  }

  function AskedTab(): T.Tab {
    T.Tab([T.ReqId(7, 0)], {T.ReqId(7, 0)}, [], 1)
  }

  lemma ClickAsks(x: real, y: real)
    ensures var m := MessageOf("t", T.ReqId(7, 0), x, y);
      var s := Step(RL.DEPTH_QUERY, Start({"t"}), Click("t", 7, x, y, true));
      s == Start({"t"}).(tabs := map["t" := AskedTab()], clicks := map[("t", T.ReqId(7, 0)) := m], uplink := {m})
  {
    assert T.Click(T.NewTab(), 7, true) == AskedTab();
    assert Start({"t"}).tabs["t" := AskedTab()] == map["t" := AskedTab()];
  }

  lemma RelayPosts(s: System, m: Msg)
    requires m in s.uplink && s.topic == R.Fresh()
    ensures var t := Step(RL.DEPTH_QUERY, Step(RL.DEPTH_QUERY, s, Hooked(m)), WorkerTakes(10.0));
      t == s.(topic := t.topic) && t.topic.worker == R.Posting(m)
  {
    var h := R.Hook(RL.DEPTH_QUERY.config, 50, s.topic, m);
    assert h.queue == [m];
  }

  lemma SinkReplies(s: System, m: Msg, d: real)
    requires s.topic.worker == R.Posting(m) && m.sessionId == Some("t")
    ensures var a := R.Reply(Some("t"), Answer(m.body.req, Some(d)));
      var t := Step(RL.DEPTH_QUERY, s, SinkAnswers(10.1, Some(d)));
      a in t.downlink && t.tabs == s.tabs && t.hub == s.hub
  {
  }

  lemma HubDelivers(s: System, a: Answer)
    requires s.hub == H.NewHub() && R.Reply(Some("t"), a) in s.downlink
    ensures var t := Step(RL.DEPTH_QUERY, Step(RL.DEPTH_QUERY, Step(RL.DEPTH_QUERY, s, Connect(Some("t"))),
        Broadcast(R.Reply(Some("t"), a))), Pull(0));
      ("t", H.Payload(Some("t"), a)) in t.wire && t.tabs == s.tabs
  {
    assert H.ValidSession("t");
    var h1 := H.Connect(s.hub, Some("t"));
    assert h1.subscribers == map["t" := 0] && h1.streams == map[0 := H.Stream("t", [])];
    var h2 := H.Broadcast(h1, H.Payload(Some("t"), a));
    assert h2.streams[0].queue == [H.Payload(Some("t"), a)];
  }

  lemma TabResolves(s: System, d: real)
    requires s.tabs == map["t" := AskedTab()] && ("t", H.Payload(Some("t"), Answer(T.ReqId(7, 0), Some(d)))) in s.wire
    ensures Step(RL.DEPTH_QUERY, s, Receive("t", H.Payload(Some("t"), Answer(T.ReqId(7, 0), Some(d))))).tabs ==
      map["t" := T.Tab([], {}, [T.Resolution(T.ReqId(7, 0), Some(d))], 1)]
  {
    var r := T.ReqId(7, 0);
    assert T.Without([r], r) == [] && {r} - {r} == {};
    assert T.Receive(AskedTab(), Some(r), Some(d)) == T.Tab([], {}, [T.Resolution(r, Some(d))], 1);
  }

  /** And the round trip can succeed: one click, answered. */
  lemma RoundTrip(x: real, y: real, d: real) returns (events: seq<Event>)
    ensures Run(RL.DEPTH_QUERY, {"t"}, events).tabs == map["t" := T.Tab([], {}, [T.Resolution(T.ReqId(7, 0), Some(d))], 1)]
  {
    var u, m, a := RL.DEPTH_QUERY, MessageOf("t", T.ReqId(7, 0), x, y), Answer(T.ReqId(7, 0), Some(d));
    var e1, e2, e3, e4 := Click("t", 7, x, y, true), Hooked(m), WorkerTakes(10.0), SinkAnswers(10.1, Some(d));
    var e5, e6, e7, e8 := Connect(Some("t")), Broadcast(R.Reply(Some("t"), a)), Pull(0), Receive("t", H.Payload(Some("t"), a));
    var s1 := Step(u, Start({"t"}), e1);
    var s3 := Step(u, Step(u, s1, e2), e3);
    var s4 := Step(u, s3, e4);
    ClickAsks(x, y);
    RelayPosts(s1, m);
    SinkReplies(s3, m, d);
    HubDelivers(s4, a);
    TabResolves(Step(u, Step(u, Step(u, s4, e5), e6), e7), d);
    var es1 := Then(u, [], Start({"t"}), e1);
    var es2 := Then(u, es1, s1, e2);
    var es3 := Then(u, es2, Step(u, s1, e2), e3);
    var es4 := Then(u, es3, s3, e4);
    var es5 := Then(u, es4, s4, e5);
    var es6 := Then(u, es5, Step(u, s4, e5), e6);
    var es7 := Then(u, es6, Step(u, Step(u, s4, e5), e6), e7);
    events := Then(u, es7, Step(u, Step(u, Step(u, s4, e5), e6), e7), e8);
  }

  lemma Then(u: RL.Setup, events: seq<Event>, s: System, e: Event) returns (more: seq<Event>)
    requires Run(u, {"t"}, events) == s
    ensures Run(u, {"t"}, more) == Step(u, s, e)
  {
    Snoc(u, {"t"}, events, e);
    more := events + [e];
  }
}
