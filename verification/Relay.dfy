/** The back-channel relay (textroom_relay.py): one bounded queue and one forwarding worker per topic.
    A handler or a worker runs alone between two awaits, so each step below is atomic. */
module Relay {
  import opened Options

  /** A message's `ts`: missing, a number (`int()` accepts numeric strings), or not a number. */
  datatype Ts = Absent | Num(n: int) | Bad

  datatype Msg<+P> = Msg(ts: Ts, sessionId: Option<string>, body: P)

  /** A sink's JSON answer. */
  datatype Reply<+R> = Reply(sessionId: Option<string>, body: R)

  datatype Schema = Raw | NoSchema | Unknown

  datatype Config = Config(rateLimitHz: real, dedupeTs: bool, broadcast: bool, schema: Schema)

  datatype Stats = Stats(seen: nat, enqueued: nat, dropped: nat, forwarded: nat, errors: nat, lastTsForwarded: int)

  /** What the worker is at; it may be publishing JSON that is no object. */
  datatype Worker<+P, +R> = Idle | Posting(msg: Msg<P>) | Publishing(reply: Option<Reply<R>>) | Dead

  /** One topic: its queue with the count of unacknowledged items, its counters and its worker. */
  datatype Topic<+P, +R> = Topic(queue: seq<Msg<P>>, unfinished: nat, stats: Stats, worker: Worker<P, R>, lastForward: real)

  /** Whether the worker's early exits acknowledge on their own, besides the `finally`: the code as
      written does, the intended single acknowledgement does not. */
  datatype Acks = AsWritten | Single

  /** The body of a good answer: a JSON object, other JSON, or no JSON. */
  datatype Json<+R> = Object(reply: Reply<R>) | OtherJson | NoJson

  /** What the sink's POST came to. */
  datatype Result<+R> = Answer200(json: Json<R>) | HttpError | Raised

  function MinInterval(c: Config): real {
    if c.rateLimitHz > 0.0 then 1.0 / c.rateLimitHz else 0.0
  }

  /** `int(payload.get("ts", 0))`. */
  function TsOf<P>(m: Msg<P>): Option<int> {
    match m.ts
    case Absent => Some(0)
    case Num(n) => Some(n)
    case Bad => None
  }

  function Fresh<P, R>(): Topic<P, R> {
    Topic([], 0, Stats(0, 0, 0, 0, 0, 0), Idle, 0.0)
  }

  /** A non-positive maximum makes the queue unbounded. */
  predicate Full<P, R>(t: Topic<P, R>, queueMax: int) {
    queueMax > 0 && |t.queue| >= queueMax
  }

  // ---------- the hook ----------

  /** Overflow drops the oldest; its acknowledgement never fails loudly. */
  function DropOldest<P, R>(t: Topic<P, R>): Topic<P, R>
    requires t.queue != []
  {
    t.(queue := t.queue[1..], unfinished := if t.unfinished == 0 then 0 else t.unfinished - 1,
       stats := t.stats.(dropped := t.stats.dropped + 1))
  }

  function Put<P, R>(t: Topic<P, R>, m: Msg<P>): Topic<P, R> {
    t.(queue := t.queue + [m], unfinished := t.unfinished + 1, stats := t.stats.(enqueued := t.stats.enqueued + 1))
  }

  function Hook<P, R>(c: Config, queueMax: int, t: Topic<P, R>, m: Msg<P>): Topic<P, R> {
    var s := t.(stats := t.stats.(seen := t.stats.seen + 1));
    if c.schema == Unknown then s.(stats := s.stats.(dropped := s.stats.dropped + 1))
    else Put(if Full(s, queueMax) then DropOldest(s) else s, m)
  }

  // ---------- the worker ----------

  /** The `finally` block: an acknowledgement too many raises, and nothing catches it there. */
  function Finish<P, R>(t: Topic<P, R>): Topic<P, R> {
    if t.unfinished == 0 then t.(worker := Dead) else t.(unfinished := t.unfinished - 1, worker := Idle)
  }

  function Failed<P, R>(t: Topic<P, R>): Topic<P, R> {
    Finish(t.(stats := t.stats.(errors := t.stats.errors + 1)))
  }

  /** An early exit; as written, its own acknowledgement may raise too, which counts as an error. */
  function Early<P, R>(acks: Acks, t: Topic<P, R>): Topic<P, R> {
    if acks == Single then Finish(t)
    else if t.unfinished == 0 then Failed(t)
    else Finish(t.(unfinished := t.unfinished - 1))
  }

  predicate Ready<P, R>(t: Topic<P, R>) {
    t.worker.Idle? && t.queue != []
  }

  predicate Gated<P, R>(c: Config, t: Topic<P, R>, now: real) {
    MinInterval(c) > 0.0 && now - t.lastForward < MinInterval(c)
  }

  predicate Stale<P, R>(c: Config, t: Topic<P, R>, m: Msg<P>) {
    c.dedupeTs && TsOf(m).Some? && TsOf(m).value <= t.stats.lastTsForwarded
  }

  predicate Unreadable<P>(c: Config, m: Msg<P>) {
    c.dedupeTs && TsOf(m).None?
  }

  /** From `queue.get` to the sink's POST, or to an early exit. */
  function Take<P, R>(c: Config, acks: Acks, t: Topic<P, R>, now: real): Topic<P, R>
    requires Ready(t)
  {
    var m, s := t.queue[0], t.(queue := t.queue[1..]);
    if Gated(c, t, now) then Early(acks, s.(stats := s.stats.(dropped := s.stats.dropped + 1)))
    else if Unreadable(c, m) then Failed(s)
    else if Stale(c, t, m) then Early(acks, s)
    else s.(worker := Posting(m))
  }

  /** The relay puts the request's session on the answer. */
  function Reattached<P, R>(m: Msg<P>, r: Reply<R>): Reply<R> {
    if m.sessionId.Some? then r.(sessionId := m.sessionId) else r
  }

  /** What is published, if anything: a session cannot be put on JSON that is no object. */
  function Published<P, R>(m: Msg<P>, json: Json<R>): Option<Option<Reply<R>>> {
    match json
    case Object(reply) => Some(Some(Reattached(m, reply)))
    case OtherJson => if m.sessionId.Some? then None else Some(None)
    case NoJson => None
  }

  /** From the sink's answer to the publish POST, or to the end. */
  function Replied<P, R>(c: Config, t: Topic<P, R>, now: real, r: Result<R>): Topic<P, R>
    requires t.worker.Posting?
  {
    match r
    case HttpError => Failed(t)
    case Raised => Failed(t)
    case Answer200(json) =>
      var m := t.worker.msg;
      var ts := if c.dedupeTs && TsOf(m).Some? then TsOf(m).value else t.stats.lastTsForwarded;
      var s := t.(stats := t.stats.(forwarded := t.stats.forwarded + 1, lastTsForwarded := ts), lastForward := now);
      if c.broadcast && Published(m, json).Some? then s.(worker := Publishing(Published(m, json).value)) else Finish(s)
  }

  // ---------- the relay ----------

  /** What Janus hooks in: no message for a topic, a ping, or a message with its `topic` field. */
  datatype Inbound<+P> = Ignored | Ping(id: int, ts: int) | Message(topic: Option<string>, msg: Msg<P>)

  function DetectTopic(topic: Option<string>): string {
    if topic.Some? && topic.value != "" then topic.value else "unknown"
  }

  /** The entries of one topic in the relay's dictionaries, with its worker's locals. */
  class Channel<P, R> {
    const config: Config
    const queueMax: int
    const acks: Acks
    var queue: seq<Msg<P>>
    var unfinished: nat
    var stats: Stats
    var worker: Worker<P, R>
    var lastForward: real

    function State(): Topic<P, R>
      reads this
    {
      Topic(queue, unfinished, stats, worker, lastForward)
    }

    constructor (config: Config, queueMax: int, acks: Acks)
      ensures this.config == config && this.queueMax == queueMax && this.acks == acks && State() == Fresh()
    {
      this.config, this.queueMax, this.acks := config, queueMax, acks;
      queue, unfinished, stats, worker, lastForward := [], 0, Stats(0, 0, 0, 0, 0, 0), Idle, 0.0;
    }

    /** `asyncio.Queue.task_done`; false stands for its ValueError. */
    method TaskDone() returns (ok: bool)
      modifies this`unfinished
      ensures ok == (old(unfinished) > 0)
      ensures unfinished == if ok then old(unfinished) - 1 else 0
    {
      ok := unfinished > 0;
      if ok {
        unfinished := unfinished - 1;
      }
    }

    /** The worker's `finally` block. */
    method Finally()
      modifies this`unfinished, this`worker
      ensures State() == Finish(old(State()))
    {
      var ok := TaskDone();
      worker := if ok then Idle else Dead;
    }

    method Error()
      modifies this`unfinished, this`worker, this`stats
      ensures State() == Failed(old(State()))
    {
      stats := stats.(errors := stats.errors + 1);
      Finally();
    }

    method LeaveEarly()
      modifies this`unfinished, this`worker, this`stats
      ensures State() == Early(acks, old(State()))
    {
      if acks == Single {
        Finally();
        return;
      }
      var ok := TaskDone();
      if ok {
        Finally();
      } else {
        Error();
      }
    }

    /** The hook's part for this topic. */
    method Enqueue(msg: Msg<P>)
      modifies this
      ensures State() == Hook(config, queueMax, old(State()), msg)
    {
      stats := stats.(seen := stats.seen + 1);
      if config.schema == Unknown {
        stats := stats.(dropped := stats.dropped + 1);
        return;
      }
      if queueMax > 0 && |queue| >= queueMax {
        queue := queue[1..];
        var _ := TaskDone();
        stats := stats.(dropped := stats.dropped + 1);
      }
      queue, unfinished := queue + [msg], unfinished + 1;
      stats := stats.(enqueued := stats.enqueued + 1);
    }

    /** The worker gets a message and runs to its next await. */
    method WorkerTake(now: real)
      requires Ready(State())
      modifies this
      ensures State() == Take(config, acks, old(State()), now)
    {
      var payload := queue[0];
      queue := queue[1..];
      var minInterval := MinInterval(config);
      if minInterval > 0.0 {
        if now - lastForward < minInterval {
          stats := stats.(dropped := stats.dropped + 1);
          LeaveEarly();
          return;
        }
      }
      if config.dedupeTs {
        var ts := TsOf(payload);
        if ts.None? {
          Error();
          return;
        }
        if ts.value <= stats.lastTsForwarded {
          LeaveEarly();
          return;
        }
      }
      worker := Posting(payload);
    }

    method WorkerReplied(now: real, r: Result<R>)
      requires worker.Posting?
      modifies this
      ensures State() == Replied(config, old(State()), now, r)
    {
      if !r.Answer200? {
        Error();
        return;
      }
      var payload := worker.msg;
      if config.dedupeTs {
        var ts := TsOf(payload);
        if ts.Some? {
          stats := stats.(lastTsForwarded := ts.value);
        }
      }
      stats := stats.(forwarded := stats.forwarded + 1);
      lastForward := now;
      if !config.broadcast || r.json.NoJson? {
        Finally();
        return;
      }
      if payload.sessionId.Some? {
        if r.json.OtherJson? {
          Finally();
          return;
        }
        worker := Publishing(Some(r.json.reply.(sessionId := payload.sessionId)));
      } else {
        worker := Publishing(if r.json.Object? then Some(r.json.reply) else None);
      }
    }

    /** The publish POST ended, well or badly. */
    method WorkerPublished()
      requires worker.Publishing?
      modifies this
      ensures State() == Finish(old(State()))
    {
      Finally();
    }
  }

  class Relay<P, R> {
    const channels: map<string, Channel<P, R>>
    var lastPong: Option<(int, int)>

    ghost predicate Valid()
      reads this
    {
      forall m, n :: m in channels && n in channels && m != n ==> channels[m] != channels[n]
    }

    constructor (channels: map<string, Channel<P, R>>)
      requires forall m, n :: m in channels && n in channels && m != n ==> channels[m] != channels[n]
      ensures Valid() && this.channels == channels && lastPong == None
    {
      this.channels := channels;
      lastPong := None;
    }

    /** Janus's webhook, past its source check and JSON parsing. A message reaches its own topic's
        channel and leaves every other one as it was. */
    method TextroomHook(b: Inbound<P>)
      requires Valid()
      modifies this`lastPong, channels.Values
      ensures Valid()
      ensures lastPong == if b.Ping? then Some((b.id, b.ts)) else old(lastPong)
      ensures b.Message? && DetectTopic(b.topic) in channels ==>
        var c := channels[DetectTopic(b.topic)];
        c.State() == Hook(c.config, c.queueMax, old(c.State()), b.msg)
      ensures forall n :: n in channels && !(b.Message? && n == DetectTopic(b.topic)) ==>
        channels[n].State() == old(channels[n].State())
    {
      match b {
        case Ignored =>
        case Ping(id, ts) => lastPong := Some((id, ts));
        case Message(topic, msg) =>
          if DetectTopic(topic) in channels {
            channels[DetectTopic(topic)].Enqueue(msg);
          }
      }
    }
  }
}

/** Every run of one topic: hooks, worker steps and sink answers in any interleaving. */
module RelayLaws {
  import opened Options
  import opened Relay

  datatype Event<+P, +R> =
    | Hooked(msg: Msg<P>)
    | Taken(now: real)
    | Answered(now: real, result: Result<R>)
    | PublishEnded

  /** One successful forward: which accepted message, when its POST began and when it succeeded. */
  datatype Forward = Forward(at: nat, start: real, end: real)

  /** What a run did: the messages accepted, how many of them have left the queue, the one last taken
      and when, the successful forwards, the messages dedupe skipped, the early exits, the overflows that
      met an empty count of unacknowledged messages, and the messages counted twice. */
  datatype Log<+P> = Log(accepted: seq<Msg<P>>, gone: nat, current: nat, startedAt: real, forwards: seq<Forward>,
                         skipped: nat, early: nat, saved: nat, twice: nat)

  datatype Run<+P, +R> = Run(topic: Topic<P, R>, log: Log<P>)

  datatype Setup = Setup(config: Config, queueMax: int, acks: Acks)

  function Begin<P, R>(): Run<P, R> {
    Run(Fresh(), Log([], 0, 0, 0.0, [], 0, 0, 0, 0))
  }

  function AfterHook<P, R>(u: Setup, s: Run<P, R>, m: Msg<P>): Run<P, R> {
    var over := if Full(s.topic, u.queueMax) then 1 else 0;
    Run(Hook(u.config, u.queueMax, s.topic, m),
        if u.config.schema == Unknown then s.log
        else s.log.(accepted := s.log.accepted + [m], gone := s.log.gone + over,
                    saved := s.log.saved + if s.topic.unfinished == 0 then over else 0))
  }

  function AfterTake<P, R>(u: Setup, s: Run<P, R>, now: real): Run<P, R>
    requires Ready(s.topic)
  {
    var m := s.topic.queue[0];
    var gated := Gated(u.config, s.topic, now);
    var stale := !gated && !Unreadable(u.config, m) && Stale(u.config, s.topic, m);
    var refused := u.acks == AsWritten && s.topic.unfinished == 0;
    Run(Take(u.config, u.acks, s.topic, now),
        s.log.(gone := s.log.gone + 1, current := s.log.gone, startedAt := now,
               early := s.log.early + if gated || stale then 1 else 0,
               skipped := s.log.skipped + if stale && !refused then 1 else 0,
               twice := s.log.twice + if gated && refused then 1 else 0))
  }

  function AfterAnswer<P, R>(u: Setup, s: Run<P, R>, now: real, r: Result<R>): Run<P, R>
    requires s.topic.worker.Posting?
  {
    Run(Replied(u.config, s.topic, now, r),
        if r.Answer200? then s.log.(forwards := s.log.forwards + [Forward(s.log.current, s.log.startedAt, now)]) else s.log)
  }

  /** An event that cannot happen in a state leaves it as it is. */
  function Step<P, R>(u: Setup, s: Run<P, R>, e: Event<P, R>): Run<P, R> {
    match e
    case Hooked(m) => AfterHook(u, s, m)
    case Taken(now) => if Ready(s.topic) then AfterTake(u, s, now) else s
    case Answered(now, r) => if s.topic.worker.Posting? then AfterAnswer(u, s, now, r) else s
    case PublishEnded => if s.topic.worker.Publishing? then s.(topic := Finish(s.topic)) else s
  }

  function RunOf<P, R>(u: Setup, events: seq<Event<P, R>>): Run<P, R> {
    if events == [] then Begin() else Step(u, RunOf(u, events[..|events| - 1]), events[|events| - 1])
  }

  // ---------- single steps, in numbers ----------

  /** Enough time since the last success for the rate. */
  predicate Due(c: Config, lastForward: real, now: real) {
    c.rateLimitHz <= 0.0 || (now - lastForward) * c.rateLimitHz >= 1.0
  }

  /** Under dedupe, a timestamp (0 if missing) above the last one forwarded. */
  predicate Newer<P>(c: Config, last: int, m: Msg<P>) {
    !c.dedupeTs || (m.ts == Absent && 0 > last) || (m.ts.Num? && m.ts.n > last)
  }

  lemma IntervalTells(hz: real, dt: real)
    requires hz > 0.0
    ensures dt < 1.0 / hz <==> dt * hz < 1.0
  {
    var i := 1.0 / hz;
    var one, got := i * hz, dt * hz;
    assert one == 1.0;
    if dt < i {
      Grows(dt, i, hz);
      assert got < one;
    } else {
      GrowsOrStays(i, dt, hz);
      assert one <= got;
    }
  }

  lemma GrowsOrStays(a: real, b: real, c: real)
    requires a <= b && c > 0.0
    ensures a * c <= b * c
  {
    if a < b { Grows(a, b, c); }
  }

  lemma Grows(a: real, b: real, c: real)
    requires a < b && c > 0.0
    ensures a * c < b * c
  {
    assert (b - a) * c > 0.0;
  }

  /** What the worker takes leaves the queue's head, and is posted if and only if it is due and newer.
      Otherwise exactly one counter of this message moves: dropped if it is not due, errors if its
      timestamp is no number, none if it is merely not newer; and as written, an acknowledgement refused
      on the way is one more error. */
  lemma TakeIs<P, R>(u: Setup, t: Topic<P, R>, now: real)
    requires Ready(t)
    ensures var m, c, n := t.queue[0], u.config, Take(u.config, u.acks, t, now);
      var posts := Due(c, t.lastForward, now) && Newer(c, t.stats.lastTsForwarded, m);
      var unreadable := Due(c, t.lastForward, now) && c.dedupeTs && m.ts == Bad;
      var refused := u.acks == AsWritten && t.unfinished == 0 && !unreadable;
      && n.queue == t.queue[1..] && n.lastForward == t.lastForward
      && (posts ==> n == t.(queue := t.queue[1..], worker := Posting(m)))
      && (!posts ==> n.worker in {Idle, Dead} && n.stats == t.stats.(
            dropped := t.stats.dropped + if Due(c, t.lastForward, now) then 0 else 1,
            errors := t.stats.errors + if unreadable || refused then 1 else 0))
  {
    if u.config.rateLimitHz > 0.0 { IntervalTells(u.config.rateLimitHz, now - t.lastForward); }
    IntervalSign(u.config);
  }

  lemma IntervalSign(c: Config)
    ensures MinInterval(c) > 0.0 <==> c.rateLimitHz > 0.0
  {
  }

  /** What arrives: counted; refused under a schema the relay does not know; otherwise put at the end of the
      queue, whose head goes only if the queue was full. */
  lemma HookIs<P, R>(u: Setup, t: Topic<P, R>, m: Msg<P>)
    ensures var n, full := Hook(u.config, u.queueMax, t, m), 0 < u.queueMax <= |t.queue|;
      && n.worker == t.worker && n.lastForward == t.lastForward
      && (u.config.schema == Unknown ==> n == t.(stats := t.stats.(seen := t.stats.seen + 1, dropped := t.stats.dropped + 1)))
      && (u.config.schema != Unknown ==>
            && n.queue == (if full then t.queue[1..] else t.queue) + [m]
            && n.stats == t.stats.(seen := t.stats.seen + 1, enqueued := t.stats.enqueued + 1,
                 dropped := t.stats.dropped + if full then 1 else 0))
  {
  }

  /** What the sink answered: a success counts, sets the clock and, under dedupe, the timestamp; a failure
      counts as an error. On a broadcasting topic what is published is the answer under the request's
      session, if it has one. */
  lemma RepliedIs<P, R>(c: Config, t: Topic<P, R>, now: real, r: Result<R>)
    requires t.worker.Posting?
    ensures var n, m := Replied(c, t, now, r), t.worker.msg;
      && n.queue == t.queue
      && (!r.Answer200? ==> n.stats == t.stats.(errors := t.stats.errors + 1) && n.lastForward == t.lastForward)
      && (r.Answer200? ==> n.lastForward == now && n.stats == t.stats.(forwarded := t.stats.forwarded + 1,
            lastTsForwarded := if c.dedupeTs && m.ts.Num? then m.ts.n else if c.dedupeTs && m.ts == Absent then 0
                               else t.stats.lastTsForwarded))
      && (n.worker.Publishing? <==> c.broadcast && r.Answer200? && (r.json.Object? || (r.json.OtherJson? && m.sessionId.None?)))
      && (n.worker.Publishing? && r.json.Object? ==>
            n.worker.reply == Some(if m.sessionId.Some? then Reply(m.sessionId, r.json.reply.body) else r.json.reply))
      && (!n.worker.Publishing? ==> n.worker == if t.unfinished == 0 then Dead else Idle)
  {
  }

  function InFlight<P, R>(t: Topic<P, R>): nat {
    if t.worker.Posting? then 1 else 0
  }

  function Busy<P, R>(t: Topic<P, R>): nat {
    if t.worker.Posting? || t.worker.Publishing? then 1 else 0
  }

  // ---------- the queue ----------

  /** The queue is what was accepted and has not left, and what is in flight was the last to leave. */
  predicate Suffix<P(==), R>(u: Setup, s: Run<P, R>) {
    && s.log.gone <= |s.log.accepted|
    && s.topic.queue == s.log.accepted[s.log.gone..]
    && (s.topic.worker.Posting? ==> s.log.current < s.log.gone && s.log.accepted[s.log.current] == s.topic.worker.msg)
    && (u.queueMax > 0 ==> |s.topic.queue| <= u.queueMax)
  }

  lemma StepKeepsSuffix<P, R>(u: Setup, s: Run<P, R>, e: Event<P, R>)
    requires Suffix(u, s)
    ensures Suffix(u, Step(u, s, e))
  {
    var acc, gone := s.log.accepted, s.log.gone;
    match e
    case Hooked(m) =>
      if u.config.schema != Unknown {
        assert (acc + [m])[gone..] == acc[gone..] + [m];
        if Full(s.topic, u.queueMax) { assert (acc + [m])[gone + 1..] == acc[gone..][1..] + [m]; }
      }
    case Taken(now) =>
      if Ready(s.topic) {
        assert acc[gone..][1..] == acc[gone + 1..] && acc[gone..][0] == acc[gone];
        TakeKeepsQueue(u, s.topic, now);
      }
    case Answered(_, _) =>
    case PublishEnded =>
  }

  lemma TakeKeepsQueue<P, R>(u: Setup, t: Topic<P, R>, now: real)
    requires Ready(t)
    ensures var n := Take(u.config, u.acks, t, now);
      n.queue == t.queue[1..] && (n.worker.Posting? ==> n.worker.msg == t.queue[0])
  {
  }

  /** In every run the queue is a contiguous suffix of the accepted stream, never over its maximum. */
  lemma {:induction false} QueueIsSuffix<P, R>(u: Setup, events: seq<Event<P, R>>)
    ensures Suffix(u, RunOf(u, events))
    decreases events
  {
    if events != [] {
      QueueIsSuffix(u, events[..|events| - 1]);
      StepKeepsSuffix(u, RunOf(u, events[..|events| - 1]), events[|events| - 1]);
    }
  }

  // ---------- the counters ----------

  /** Every message seen is in exactly one place, but for those that a refused acknowledgement counts
      twice; and that kills the worker, so there is at most one. */
  predicate Accounted<P, R>(u: Setup, s: Run<P, R>) {
    && s.topic.stats.seen + s.log.twice ==
      s.topic.stats.dropped + s.topic.stats.forwarded + s.topic.stats.errors + s.log.skipped + |s.topic.queue| + InFlight(s.topic)
    && s.log.twice <= (if s.topic.worker.Dead? then 1 else 0)
    && (u.acks == Single ==> s.log.twice == 0)
    && s.topic.stats.enqueued == |s.log.accepted|
    && s.topic.stats.forwarded == |s.log.forwards|
  }

  lemma HookCounts<P, R>(u: Setup, s: Run<P, R>, m: Msg<P>)
    requires Accounted(u, s)
    ensures Accounted(u, Step(u, s, Hooked(m)))
  {
  }

  lemma TakeCounts<P, R>(u: Setup, s: Run<P, R>, now: real)
    requires Accounted(u, s)
    ensures Accounted(u, Step(u, s, Taken(now)))
  {
  }

  lemma AnswerCounts<P, R>(u: Setup, s: Run<P, R>, now: real, r: Result<R>)
    requires Accounted(u, s)
    ensures Accounted(u, Step(u, s, Answered(now, r)))
  {
  }

  lemma {:induction false} EverythingIsAccounted<P, R>(u: Setup, events: seq<Event<P, R>>)
    ensures Accounted(u, RunOf(u, events))
    decreases events
  {
    if events != [] {
      var s, e := RunOf(u, events[..|events| - 1]), events[|events| - 1];
      EverythingIsAccounted(u, events[..|events| - 1]);
      match e
      case Hooked(m) => HookCounts(u, s, m);
      case Taken(now) => TakeCounts(u, s, now);
      case Answered(now, r) => AnswerCounts(u, s, now, r);
      case PublishEnded =>
    }
  }

  // ---------- the forwards ----------

  /** Forwards go in the order of acceptance. */
  predicate InOrder<P, R>(s: Run<P, R>) {
    && (forall i, j :: 0 <= i < j < |s.log.forwards| ==> s.log.forwards[i].at < s.log.forwards[j].at)
    && (forall i :: 0 <= i < |s.log.forwards| ==>
          s.log.forwards[i].at < if s.topic.worker.Posting? then s.log.current else s.log.gone)
    && (s.topic.worker.Posting? ==> s.log.current < s.log.gone)
  }

  lemma StepKeepsOrder<P, R>(u: Setup, s: Run<P, R>, e: Event<P, R>)
    requires InOrder(s)
    ensures InOrder(Step(u, s, e))
  {
    match e
    case Hooked(_) =>
    case Taken(_) =>
    case Answered(_, _) =>
    case PublishEnded =>
  }

  /** The successful forwards are a subsequence of the accepted stream, in its order. */
  lemma {:induction false} ForwardsInOrder<P, R>(u: Setup, events: seq<Event<P, R>>)
    ensures InOrder(RunOf(u, events))
    ensures forall i :: 0 <= i < |RunOf(u, events).log.forwards| ==>
      RunOf(u, events).log.forwards[i].at < |RunOf(u, events).log.accepted|
    decreases events
  {
    QueueIsSuffix(u, events);
    if events != [] {
      ForwardsInOrder(u, events[..|events| - 1]);
      StepKeepsOrder(u, RunOf(u, events[..|events| - 1]), events[|events| - 1]);
    }
  }

  // ---------- the rate ----------

  function TimeOf<P, R>(e: Event<P, R>, before: real): real {
    match e
    case Taken(now) => now
    case Answered(now, _) => now
    case _ => before
  }

  /** The time of a run's last timed event, or that of its beginning. */
  function Clock<P, R>(t0: real, events: seq<Event<P, R>>): real {
    if events == [] then t0 else TimeOf(events[|events| - 1], Clock(t0, events[..|events| - 1]))
  }

  predicate Clocked<P, R>(t0: real, events: seq<Event<P, R>>)
    decreases events
  {
    events == [] || (Clocked(t0, events[..|events| - 1]) && Clock(t0, events[..|events| - 1]) <= Clock(t0, events))
  }

  /** When the last success ended; 0 if there was none. */
  function LastEnd(f: seq<Forward>): real {
    if f == [] then 0.0 else f[|f| - 1].end
  }

  /** Each forward begins the minimum interval or more after the success before it. */
  predicate Paced<P, R>(u: Setup, s: Run<P, R>) {
    && (MinInterval(u.config) > 0.0 ==> forall i :: 0 < i < |s.log.forwards| ==>
          s.log.forwards[i].start - s.log.forwards[i - 1].end >= MinInterval(u.config))
    && s.topic.lastForward == LastEnd(s.log.forwards)
    && (s.topic.worker.Posting? && MinInterval(u.config) > 0.0 ==> s.log.startedAt - s.topic.lastForward >= MinInterval(u.config))
  }

  lemma StepKeepsPace<P, R>(u: Setup, s: Run<P, R>, e: Event<P, R>)
    requires Paced(u, s)
    ensures Paced(u, Step(u, s, e))
  {
    match e
    case Hooked(_) =>
    case Taken(_) =>
    case Answered(_, _) =>
    case PublishEnded =>
  }

  lemma {:induction false} ForwardsArePaced<P, R>(u: Setup, events: seq<Event<P, R>>)
    ensures Paced(u, RunOf(u, events))
    decreases events
  {
    if events != [] {
      ForwardsArePaced(u, events[..|events| - 1]);
      StepKeepsPace(u, RunOf(u, events[..|events| - 1]), events[|events| - 1]);
    }
  }

  /** In every run: a message taken at or after 1/rate since the last success, and newer under dedupe, is in
      flight. */
  lemma DueIsInFlight<P, R>(u: Setup, events: seq<Event<P, R>>, now: real)
    requires Ready(RunOf(u, events).topic) && Due(u.config, LastEnd(RunOf(u, events).log.forwards), now)
    requires var t := RunOf(u, events).topic; Newer(u.config, t.stats.lastTsForwarded, t.queue[0])
    ensures RunOf(u, events + [Taken(now)]).topic.worker == Posting(RunOf(u, events).topic.queue[0])
  {
    ForwardsArePaced(u, events);
    Snoc(u, events, Taken(now));
    DuePosts(u, RunOf(u, events).topic, now);
  }

  lemma DuePosts<P, R>(u: Setup, t: Topic<P, R>, now: real)
    requires Ready(t) && Due(u.config, t.lastForward, now) && Newer(u.config, t.stats.lastTsForwarded, t.queue[0])
    ensures Take(u.config, u.acks, t, now).worker == Posting(t.queue[0])
  {
    TakeIs(u, t, now);
  }

  /** On a clock that never goes back, no POST ends before it began. */
  predicate Timely<P, R>(s: Run<P, R>, clock: real) {
    && (forall i :: 0 <= i < |s.log.forwards| ==> s.log.forwards[i].start <= s.log.forwards[i].end)
    && (s.topic.worker.Posting? ==> s.log.startedAt <= clock)
  }

  lemma {:induction false} ForwardsAreTimely<P, R>(u: Setup, t0: real, events: seq<Event<P, R>>)
    requires Clocked(t0, events)
    ensures Timely(RunOf(u, events), Clock(t0, events))
    decreases events
  {
    if events != [] {
      ForwardsAreTimely(u, t0, events[..|events| - 1]);
      var e := events[|events| - 1];
      match e
      case Hooked(_) =>
      case Taken(_) =>
      case Answered(_, _) =>
      case PublishEnded =>
    }
  }

  function Times(n: nat, d: real): real {
    if n == 0 then 0.0 else Times(n - 1, d) + d
  }

  lemma {:induction false} TimesIs(n: nat, d: real)
    ensures Times(n, d) == n as real * d
  {
    if n > 0 {
      TimesIs(n - 1, d);
      OneMore((n - 1) as real, d);
    }
  }

  lemma OneMore(x: real, d: real)
    ensures x * d + d == (x + 1.0) * d
  {
  }

  lemma IntervalPositive(c: Config)
    requires c.rateLimitHz > 0.0
    ensures MinInterval(c) > 0.0 && MinInterval(c) * c.rateLimitHz == 1.0
  {
  }

  lemma {:induction false} SpacedOut<P, R>(u: Setup, t0: real, events: seq<Event<P, R>>, i: nat, j: nat)
    requires Clocked(t0, events) && i <= j < |RunOf(u, events).log.forwards| && MinInterval(u.config) > 0.0
    ensures var f := RunOf(u, events).log.forwards; f[j].start - f[i].start >= Times(j - i, MinInterval(u.config))
    decreases j
  {
    if i < j {
      SpacedOut(u, t0, events, i, j - 1);
      ForwardsArePaced(u, events);
      ForwardsAreTimely(u, t0, events);
    }
  }

  /** Under a rate limit, n forwards take at least (n - 1) / rate from the first start to the last. */
  lemma RateBound<P, R>(u: Setup, t0: real, events: seq<Event<P, R>>, i: nat, j: nat)
    requires Clocked(t0, events) && i <= j < |RunOf(u, events).log.forwards| && u.config.rateLimitHz > 0.0
    ensures var f := RunOf(u, events).log.forwards; f[j].start - f[i].start >= (j - i) as real / u.config.rateLimitHz
  {
    IntervalPositive(u.config);
    SpacedOut(u, t0, events, i, j);
    TimesIs(j - i, MinInterval(u.config));
    Quotient((j - i) as real, u.config.rateLimitHz);
  }

  lemma Quotient(x: real, y: real)
    requires y > 0.0
    ensures x * (1.0 / y) == x / y
  {
  }

  // ---------- dedupe ----------

  /** Under dedupe, forwarded timestamps strictly increase from zero. */
  predicate Increasing<P, R>(u: Setup, s: Run<P, R>) {
    var f, acc := s.log.forwards, s.log.accepted;
    u.config.dedupeTs ==>
      && (forall i :: 0 <= i < |f| ==> f[i].at < |acc| && TsOf(acc[f[i].at]).Some? && TsOf(acc[f[i].at]).value > 0)
      && (forall i :: 0 < i < |f| ==> TsOf(acc[f[i - 1].at]).value < TsOf(acc[f[i].at]).value)
      && s.topic.stats.lastTsForwarded == (if f == [] then 0 else TsOf(acc[f[|f| - 1].at]).value)
      && (s.topic.worker.Posting? ==>
            TsOf(s.topic.worker.msg).Some? && TsOf(s.topic.worker.msg).value > s.topic.stats.lastTsForwarded)
  }

  lemma HookKeepsIncreasing<P, R>(u: Setup, s: Run<P, R>, m: Msg<P>)
    requires Increasing(u, s)
    ensures Increasing(u, Step(u, s, Hooked(m)))
  {
  }

  lemma TakeKeepsIncreasing<P, R>(u: Setup, s: Run<P, R>, now: real)
    requires Increasing(u, s)
    ensures Increasing(u, Step(u, s, Taken(now)))
  {
  }

  lemma AnswerKeepsIncreasing<P, R>(u: Setup, s: Run<P, R>, now: real, r: Result<R>)
    requires Increasing(u, s) && Suffix(u, s)
    ensures Increasing(u, Step(u, s, Answered(now, r)))
  {
  }

  lemma {:induction false} TimestampsIncrease<P, R>(u: Setup, events: seq<Event<P, R>>)
    ensures Increasing(u, RunOf(u, events))
    decreases events
  {
    if events != [] {
      var before := events[..|events| - 1];
      var s, e := RunOf(u, before), events[|events| - 1];
      TimestampsIncrease(u, before);
      QueueIsSuffix(u, before);
      match e
      case Hooked(m) => HookKeepsIncreasing(u, s, m);
      case Taken(now) => TakeKeepsIncreasing(u, s, now);
      case Answered(now, r) => AnswerKeepsIncreasing(u, s, now, r);
      case PublishEnded =>
    }
  }

  // ---------- acknowledgements ----------

  /** With one acknowledgement a message, the unfinished count is the queue and what is in hand. */
  predicate Balanced<P, R>(s: Run<P, R>) {
    !s.topic.worker.Dead? && s.topic.unfinished == |s.topic.queue| + Busy(s.topic)
  }

  lemma StepKeepsBalance<P, R>(u: Setup, s: Run<P, R>, e: Event<P, R>)
    requires u.acks == Single && Balanced(s)
    ensures Balanced(Step(u, s, e))
  {
    match e
    case Hooked(_) =>
    case Taken(_) =>
    case Answered(_, _) =>
    case PublishEnded =>
  }

  /** The intended worker never dies, and its count never runs out. */
  lemma {:induction false} SingleAckIsBalanced<P, R>(c: Config, queueMax: int, events: seq<Event<P, R>>)
    ensures Balanced(RunOf(Setup(c, queueMax, Single), events))
    decreases events
  {
    if events != [] {
      var u := Setup(c, queueMax, Single);
      SingleAckIsBalanced(c, queueMax, events[..|events| - 1]);
      StepKeepsBalance(u, RunOf(u, events[..|events| - 1]), events[|events| - 1]);
    }
  }

  /** As written, each early exit takes one acknowledgement that belongs to another message, and each
      overflow that meets an empty count gives one back. The equation holds for a living worker and is
      off by one or two for a dead one. */
  predicate Short<P, R>(s: Run<P, R>) {
    var due, paid := |s.topic.queue| + Busy(s.topic) + s.log.saved, s.topic.unfinished + s.log.early;
    && (if s.topic.worker.Dead? then paid == due + 1 || paid == due + 2 else paid == due)
    && s.topic.unfinished <= |s.topic.queue| + Busy(s.topic)
  }

  lemma StepKeepsShort<P, R>(u: Setup, s: Run<P, R>, e: Event<P, R>)
    requires u.acks == AsWritten && Short(s)
    ensures Short(Step(u, s, e))
  {
    match e
    case Hooked(_) =>
    case Taken(now) => if Ready(s.topic) { TakeKeepsShort(u, s, now); }
    case Answered(_, _) =>
    case PublishEnded =>
  }

  lemma TakeKeepsShort<P, R>(u: Setup, s: Run<P, R>, now: real)
    requires u.acks == AsWritten && Short(s) && Ready(s.topic)
    ensures Short(AfterTake(u, s, now))
  {
  }

  lemma {:induction false} AsWrittenIsShort<P, R>(c: Config, queueMax: int, events: seq<Event<P, R>>)
    ensures Short(RunOf(Setup(c, queueMax, AsWritten), events))
    decreases events
  {
    if events != [] {
      var u := Setup(c, queueMax, AsWritten);
      AsWrittenIsShort(c, queueMax, events[..|events| - 1]);
      StepKeepsShort(u, RunOf(u, events[..|events| - 1]), events[|events| - 1]);
    }
  }

  /** As written, at every moment of every run, with overflows or without: the worker is alive if and only
      if the unfinished count and the early exits add up to the queue, what is in hand, and the overflows
      that met an empty count. */
  lemma {:induction false} AliveIff<P, R>(c: Config, queueMax: int, events: seq<Event<P, R>>)
    ensures var s := RunOf(Setup(c, queueMax, AsWritten), events);
      !s.topic.worker.Dead? <==> s.topic.unfinished + s.log.early == |s.topic.queue| + Busy(s.topic) + s.log.saved
  {
    AsWrittenIsShort(c, queueMax, events);
  }

  /** Until some worker exits early, the two ways of acknowledging are the same. */
  lemma {:induction false} SameUntilEarly<P, R>(c: Config, queueMax: int, events: seq<Event<P, R>>)
    requires RunOf(Setup(c, queueMax, AsWritten), events).log.early == 0
    ensures RunOf(Setup(c, queueMax, AsWritten), events) == RunOf(Setup(c, queueMax, Single), events)
    decreases events
  {
    if events != [] {
      var u, v, before := Setup(c, queueMax, AsWritten), Setup(c, queueMax, Single), events[..|events| - 1];
      EarlyOnlyGrows(u, RunOf(u, before), events[|events| - 1]);
      SameUntilEarly(c, queueMax, before);
      SameStep(c, queueMax, RunOf(u, before), events[|events| - 1]);
    }
  }

  lemma EarlyOnlyGrows<P, R>(u: Setup, s: Run<P, R>, e: Event<P, R>)
    ensures s.log.early <= Step(u, s, e).log.early
  {
  }

  lemma SameStep<P, R>(c: Config, queueMax: int, s: Run<P, R>, e: Event<P, R>)
    requires Step(Setup(c, queueMax, AsWritten), s, e).log.early == 0
    ensures Step(Setup(c, queueMax, AsWritten), s, e) == Step(Setup(c, queueMax, Single), s, e)
  {
  }

  /** As written: when everything accepted has been served, the worker is alive if and only if every early
      exit was made up for by an overflow that met an empty count. Without overflow, one rate-limited or
      repeated message is enough to stop the topic. */
  lemma {:induction false} DrainedAliveIff<P, R>(c: Config, queueMax: int, events: seq<Event<P, R>>)
    ensures var s := RunOf(Setup(c, queueMax, AsWritten), events);
      s.topic.queue == [] && Busy(s.topic) == 0 ==> (!s.topic.worker.Dead? <==> s.log.early == s.log.saved)
  {
    AsWrittenIsShort(c, queueMax, events);
  }

  /** A dead worker forwards nothing more, whatever arrives. */
  lemma {:induction false} DeadIsForGood<P, R>(u: Setup, a: seq<Event<P, R>>, b: seq<Event<P, R>>)
    requires RunOf(u, a).topic.worker.Dead?
    ensures RunOf(u, a + b).topic.worker.Dead? && RunOf(u, a + b).log.forwards == RunOf(u, a).log.forwards
    decreases b
  {
    if b == [] {
      assert a + b == a;
    } else {
      DeadIsForGood(u, a, b[..|b| - 1]);
      assert (a + b)[..|a + b| - 1] == a + b[..|b| - 1];
    }
  }

  const DEPTH_QUERY := Setup(Config(60.0, false, true, Raw), 50, AsWritten)

  lemma Snoc<P, R>(u: Setup, events: seq<Event<P, R>>, e: Event<P, R>)
    ensures RunOf(u, events + [e]) == Step(u, RunOf(u, events), e)
  {
    assert (events + [e])[..|events|] == events;
  }

  /** On the default depth topic: two clicks two milliseconds apart, and the second one's second
      acknowledgement underflows the count and ends the worker. */
  lemma TwoClicksKillTheWorker<P, R>(a: Msg<P>, b: Msg<P>)
    ensures var s := RunOf<P, R>(DEPTH_QUERY, [Hooked(a), Taken(10.0), Answered(10.001, Answer200(NoJson)), Hooked(b), Taken(10.002)]);
      s.topic == Topic([], 0, Stats(2, 2, 1, 1, 0, 0), Dead, 10.001)
  {
    var u: Setup, e0: Event<P, R>, e1: Event<P, R>, e2: Event<P, R> :=
      DEPTH_QUERY, Hooked(a), Taken(10.0), Answered(10.001, Answer200(NoJson));
    var e3: Event<P, R>, e4: Event<P, R> := Hooked(b), Taken(10.002);
    Snoc<P, R>(u, [], e0);
    Snoc<P, R>(u, [e0], e1);
    Snoc<P, R>(u, [e0, e1], e2);
    Snoc<P, R>(u, [e0, e1, e2], e3);
    Snoc<P, R>(u, [e0, e1, e2, e3], e4);
    assert [] + [e0] == [e0] && [e0] + [e1] == [e0, e1] && [e0, e1] + [e2] == [e0, e1, e2];
    assert [e0, e1, e2] + [e3] == [e0, e1, e2, e3] && [e0, e1, e2, e3] + [e4] == [e0, e1, e2, e3, e4];
    TwoClickSteps<P, R>(a, b);
  }

  lemma TwoClickSteps<P, R>(a: Msg<P>, b: Msg<P>)
    ensures
      var s := Step(DEPTH_QUERY, Step(DEPTH_QUERY, Begin<P, R>(), Hooked(a)), Taken(10.0));
      var t := Step(DEPTH_QUERY, Step(DEPTH_QUERY, s, Answered(10.001, Answer200(NoJson))), Hooked(b));
      Step(DEPTH_QUERY, t, Taken(10.002)).topic == Topic([], 0, Stats(2, 2, 1, 1, 0, 0), Dead, 10.001)
  {
    var s1 := Step(DEPTH_QUERY, Begin<P, R>(), Hooked(a));
    assert s1.topic.queue == [a];
    var s2 := Step(DEPTH_QUERY, s1, Taken(10.0));
    assert s2.topic == Topic([], 1, Stats(1, 1, 0, 0, 0, 0), Posting(a), 0.0);
    var s3 := Step(DEPTH_QUERY, s2, Answered(10.001, Answer200(NoJson)));
    assert s3.topic == Topic([], 0, Stats(1, 1, 0, 1, 0, 0), Idle, 10.001);
    var s4 := Step(DEPTH_QUERY, s3, Hooked(b));
    assert s4.topic == Topic([b], 1, Stats(2, 2, 0, 1, 0, 0), Idle, 10.001);
  }

  /** A message goes to the topic it names; one that names none, or an empty one, to `unknown`. */
  lemma TopicIs(topic: Option<string>)
    ensures topic.Some? && topic.value != "" ==> DetectTopic(topic) == topic.value
    ensures topic in {None, Some("")} ==> DetectTopic(topic) == "unknown"
  {
  }
}
