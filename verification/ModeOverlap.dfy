/** One listener call (app/services/mode_enforcer.py) in its steps. The call holds no lock, so the steps of
    two calls may alternate. */
module ModeSteps {
  import opened Options
  import opened ModeEnforcer

  /** What a call does next: the profile file, the status queries, the encoder command, then the history
      file, whose new content it keeps between reading and writing. */
  datatype Pos =
    | AtFile | AtQuery | AtEnsure
    | AtStop | AtRestart | AtStart
    | AtRead | AtWrite(list: seq<Transition>)
    | Done

  datatype Call = Call(t: Transition, pos: Pos)

  function Begin(t: Transition): Call {
    Call(t, if t.target == Safe then AtQuery else AtFile)
  }

  /** One step, `ok` saying whether its query, command or file access succeeds: the world after it and what
      the call does next. */
  function Next(w: World, c: Call, ok: bool): (World, Pos) {
    match c.pos
    case AtFile =>
      (if ok then w.(file := Wanted(c.t.target)) else w,
       if c.t.target == Nominal && c.t.previous !in {Degraded, LocalOnly} then AtEnsure else AtQuery)
    case AtQuery =>
      var active := ok && w.encoder.Running?;
      (w, if c.t.target == Safe then (if active then AtStop else AtRead) else if active then AtRestart else AtEnsure)
    case AtEnsure => (w, if ok && w.encoder.Running? then AtRead else AtStart)
    case AtStop => (if ok then w.(encoder := Stopped) else w, AtRead)
    case AtRestart => (if ok then w.(encoder := Running(w.file)) else w, AtRead)
    case AtStart => (if ok && w.encoder == Stopped then w.(encoder := Running(w.file)) else w, AtRead)
    case AtRead => (w, if !ok then AtWrite([]) else if w.history == NotAList then Done else AtWrite(Past(w.history)))
    case AtWrite(list) => (if ok then w.(history := Entries(Last(list + [c.t], HISTORY_MAX))) else w, Done)
    case Done => (w, Done)
  }

  function Rank(p: Pos): nat {
    match p
    case AtFile => 6
    case AtQuery => 5
    case AtEnsure => 4
    case AtRead => 2
    case AtWrite(_) => 1
    case Done => 0
    case _ => 3
  }

  lemma Sinks(w: World, c: Call, ok: bool)
    requires c.pos != Done
    ensures Rank(Next(w, c, ok).1) < Rank(c.pos)
  {
  }

  /** What `luck` says of one step. */
  function OkAt(p: Pos, luck: Luck): bool {
    match p
    case AtFile => luck.file
    case AtQuery => luck.seen
    case AtEnsure => luck.seenAgain
    case AtRead => true
    case AtWrite(_) => luck.history
    case _ => luck.command
  }

  /** The call runs to its end alone. */
  function Alone(w: World, c: Call, luck: Luck): World
    decreases Rank(c.pos)
  {
    if c.pos == Done then w
    else
      Sinks(w, c, OkAt(c.pos, luck));
      var (w', p) := Next(w, c, OkAt(c.pos, luck));
      Alone(w', c.(pos := p), luck)
  }

  lemma HistoryAlone(w: World, t: Transition, luck: Luck)
    ensures Alone(w, Call(t, AtRead), luck) == w.(history := HistoryAfter(w, t, luck))
  {
    if w.history != NotAList {
      assert Next(w, Call(t, AtRead), true) == (w, AtWrite(Past(w.history)));
      var v := Next(w, Call(t, AtWrite(Past(w.history))), luck.history).0;
      assert Alone(w, Call(t, AtWrite(Past(w.history))), luck) == Alone(v, Call(t, Done), luck) == v;
    } else {
      assert Alone(w, Call(t, AtRead), luck) == Alone(w, Call(t, Done), luck);
    }
  }

  lemma CommandAlone(w: World, t: Transition, p: Pos, luck: Luck)
    requires p in {AtStop, AtRestart, AtStart}
    ensures var v := Next(w, Call(t, p), luck.command).0;
      Alone(w, Call(t, p), luck) == v.(history := HistoryAfter(w, t, luck))
  {
    HistoryAlone(Next(w, Call(t, p), luck.command).0, t, luck);
  }

  lemma EnsureAlone(w: World, t: Transition, luck: Luck)
    ensures Alone(w, Call(t, AtEnsure), luck) ==
      w.(encoder := if w.encoder.Running? || !luck.command then w.encoder else Running(w.file), history := HistoryAfter(w, t, luck))
  {
    HistoryAlone(w, t, luck);
    CommandAlone(w, t, AtStart, luck);
  }

  lemma QueryAlone(w: World, t: Transition, luck: Luck)
    ensures Alone(w, Call(t, AtQuery), luck) == w.(
      encoder :=
        if t.target == Safe then (if luck.seen && luck.command then Stopped else w.encoder)
        else if w.encoder.Running? then (if luck.seen && luck.command then Running(w.file) else w.encoder)
        else if luck.command then Running(w.file) else Stopped,
      history := HistoryAfter(w, t, luck))
  {
    HistoryAlone(w, t, luck);
    CommandAlone(w, t, AtStop, luck);
    CommandAlone(w, t, AtRestart, luck);
    EnsureAlone(w, t, luck);
  }

  /** A call that nothing interrupts does what the enforcement as a whole is said to do. */
  lemma AloneIsEnforce(w: World, t: Transition, luck: Luck)
    ensures Alone(w, Begin(t), luck) == Enforce(w, t, luck)
  {
    if t.target == Safe {
      QueryAlone(w, t, luck);
    } else {
      var v := Next(w, Call(t, AtFile), luck.file).0;
      QueryAlone(v, t, luck);
      EnsureAlone(v, t, luck);
    }
  }
}

/** Requests, the steps of any number of overlapping calls, crashes and restarts, in every interleaving and
    with any failures. */
module OverlapLaws {
  import opened Options
  import opened ModeEnforcer
  import opened ModeSteps
  import ML = ModeLaws

  datatype Event =
    | Ask(request: Request)
    | Advance(i: nat, ok: bool)  // the i-th outstanding call takes a step
    | Crash
    | Restart

  /** The last command or outage that took effect on the encoder; a start read the profile file as the call
      for `source` had left it, or as it was at boot. */
  datatype Effect = Untouched | Halted | Began(source: Option<Mode>)

  /** `wrote` is the target of the last call that wrote or cleared the profile file; `kept` are the calls
      whose history write took effect. */
  datatype System = System(current: Mode, calls: seq<Call>, world: World, wrote: Option<Mode>, effect: Effect,
                           kept: seq<Transition>)

  function Boot(w: World): System {
    System(Nominal, [], w, None, Untouched, [])
  }

  function Put(calls: seq<Call>, i: nat, c: Call): seq<Call>
    requires i < |calls|
  {
    if c.pos == Done then calls[..i] + calls[i + 1..] else calls[i := c]
  }

  function Touched(s: System, c: Call, ok: bool): Effect {
    if !ok then s.effect
    else if c.pos == AtStop then Halted
    else if c.pos == AtRestart || (c.pos == AtStart && s.world.encoder == Stopped) then Began(s.wrote)
    else s.effect
  }

  function AfterStep(s: System, i: nat, ok: bool): System
    requires i < |s.calls|
  {
    var c := s.calls[i];
    var (w, p) := Next(s.world, c, ok);
    System(s.current, Put(s.calls, i, c.(pos := p)), w,
           if c.pos == AtFile && ok then Some(c.t.target) else s.wrote, Touched(s, c, ok),
           if c.pos.AtWrite? && ok then s.kept + [c.t] else s.kept)
  }

  function Step(s: System, e: Event): System {
    match e
    case Ask(r) =>
      var d := Decide(s.current, r);
      if d.None? then s else s.(current := d.value.target, calls := s.calls + [Begin(d.value)])
    case Advance(i, ok) => if i < |s.calls| then AfterStep(s, i, ok) else s
    case Crash => s.(world := s.world.(encoder := Stopped), effect := Halted)
    case Restart => s.(world := s.world.(encoder := Running(s.world.file)), effect := Began(s.wrote))
  }

  function Run(s: System, events: seq<Event>): System
    decreases events
  {
    if events == [] then s else Run(Step(s, events[0]), events[1..])
  }

  // ---------- exactly when a mode is honoured ----------

  /** The profile that the call for `source` left in the file, or the one at boot. */
  function Left(w: World, source: Option<Mode>): Option<Profile> {
    if source.None? then w.file else Wanted(source.value)
  }

  predicate Traced(s: System, w: World) {
    && s.world.file == Left(w, s.wrote)
    && s.world.encoder == match s.effect
         case Untouched => w.encoder
         case Halted => Stopped
         case Began(source) => Running(Left(w, source))
  }

  lemma StepTraced(s: System, e: Event, w: World)
    requires Traced(s, w)
    ensures Traced(Step(s, e), w)
  {
  }

  lemma {:induction false} RunTraced(s: System, events: seq<Event>, w: World)
    requires Traced(s, w)
    ensures Traced(Run(s, events), w)
    decreases events
  {
    if events != [] {
      StepTraced(s, events[0], w);
      RunTraced(Step(s, events[0]), events[1..], w);
    }
  }

  /** However calls overlap, whatever fails, crashes or is restarted: at any moment a mode is honoured if and
      only if, for SAFE, the last thing that took effect on the encoder stopped it; for any other mode, the
      last call to write the profile file left that mode's profile, and the last start, if nothing has
      stopped the encoder since, read that profile. */
  lemma HonouredIff(w: World, events: seq<Event>, m: Mode)
    ensures var s := Run(Boot(w), events);
      ML.Honoured(s.world, m) <==>
        if m == Safe then s.effect == Halted || (s.effect == Untouched && w.encoder == Stopped)
        else
          && Left(w, s.wrote) == Wanted(m)
          && (s.effect.Began? ==> Left(w, s.effect.source) == Wanted(m))
          && (s.effect == Untouched && w.encoder.Running? ==> w.encoder.loaded == Wanted(m))
  {
    RunTraced(Boot(w), events, w);
  }

  /** At rest, with no call outstanding and whatever the order and overlap of those that ran: a running
      encoder has the current mode's profile and SAFE has none, if and only if the last start or stop to take
      effect fits the current mode. */
  lemma AtRestIff(w: World, events: seq<Event>)
    requires Run(Boot(w), events).calls == []
    ensures var s := Run(Boot(w), events);
      (if s.current == Safe then s.world.encoder == Stopped
       else s.world.encoder.Running? ==> s.world.encoder.loaded == Wanted(s.current)) <==>
      match s.effect
      case Untouched =>
        w.encoder == Stopped || (s.current != Safe && w.encoder.loaded == Wanted(s.current))
      case Halted => true
      case Began(source) => s.current != Safe && Left(w, source) == Wanted(s.current)
  {
    RunTraced(Boot(w), events, w);
  }

  // ---------- history ----------

  lemma LastAgain(a: seq<Transition>, b: seq<Transition>, t: Transition)
    ensures Last(a + [t], HISTORY_MAX) == Last(b + [t], HISTORY_MAX) <==> Last(a, HISTORY_MAX - 1) == Last(b, HISTORY_MAX - 1)
  {
    LastTail(a, t);
    LastTail(b, t);
    var x, y := Last(a, HISTORY_MAX - 1), Last(b, HISTORY_MAX - 1);
    assert (x + [t])[..|x|] == x && (y + [t])[..|y|] == y;
  }

  lemma LastTail(a: seq<Transition>, t: Transition)
    ensures Last(a + [t], HISTORY_MAX) == Last(a, HISTORY_MAX - 1) + [t]
  {
  }

  /** A history write adds its change to the file as it is if and only if the entries that the call read are
      still those of the file, as far as they are kept. */
  lemma WriteAddsIff(s: System, i: nat)
    requires i < |s.calls| && s.calls[i].pos.AtWrite? && s.world.history != NotAList
    ensures var c := s.calls[i];
      Step(s, Advance(i, true)).world.history == Entries(Last(Past(s.world.history) + [c.t], HISTORY_MAX)) <==>
        Last(c.pos.list, HISTORY_MAX - 1) == Last(Past(s.world.history), HISTORY_MAX - 1)
  {
    LastAgain(s.calls[i].pos.list, Past(s.world.history), s.calls[i].t);
  }

  /** No write that takes effect meets a file changed since its call read it. */
  predicate NoLostWrite(s: System, events: seq<Event>)
    decreases events
  {
    events == [] ||
    var e := events[0];
    && (e.Advance? && e.i < |s.calls| && s.calls[e.i].pos.AtWrite? && e.ok ==>
          s.world.history != NotAList
          && Last(s.calls[e.i].pos.list, HISTORY_MAX - 1) == Last(Past(s.world.history), HISTORY_MAX - 1))
    && NoLostWrite(Step(s, e), events[1..])
  }

  predicate Recorded(s: System, w: World) {
    s.world.history == if s.kept == [] then w.history else Entries(ML.Fifty(Past(w.history) + s.kept))
  }

  /** Without such writes the history file holds the last fifty changes written to it, whatever overlaps. */
  lemma {:induction false} HistoryIsKept(s: System, events: seq<Event>, w: World)
    requires Recorded(s, w) && NoLostWrite(s, events)
    ensures Recorded(Run(s, events), w)
    decreases events
  {
    if events != [] {
      var e := events[0];
      if e.Advance? && e.i < |s.calls| && s.calls[e.i].pos.AtWrite? && e.ok {
        WriteAddsIff(s, e.i);
        ML.HistoryGrows(w.history, s.world.history, s.kept, s.calls[e.i].t);
        assert Step(s, e).kept == s.kept + [s.calls[e.i].t];
      } else {
        assert Step(s, e).kept == s.kept && Step(s, e).world.history == s.world.history;
      }
      HistoryIsKept(Step(s, e), events[1..], w);
    }
  }

  // ---------- calls one at a time ----------

  lemma {:induction false} RunAppend(s: System, a: seq<Event>, b: seq<Event>)
    ensures Run(s, a + b) == Run(Run(s, a), b)
    decreases a
  {
    if a == [] {
      assert a + b == b;
    } else {
      assert (a + b)[1..] == a[1..] + b;
      RunAppend(Step(s, a[0]), a[1..], b);
    }
  }

  /** The steps of one call with nothing in between. */
  function CallEvents(w: World, c: Call, i: nat, luck: Luck): seq<Event>
    decreases Rank(c.pos)
  {
    if c.pos == Done then []
    else
      var ok := OkAt(c.pos, luck);
      Sinks(w, c, ok);
      var (w', p) := Next(w, c, ok);
      [Advance(i, ok)] + CallEvents(w', c.(pos := p), i, luck)
  }

  /** Whether a call that runs alone gets its change into the history. */
  predicate Keeps(w: World, c: Call, luck: Luck) {
    luck.history && (if c.pos.AtWrite? then true else w.history != NotAList)
  }

  lemma {:induction false} CallRuns(s: System, i: nat, luck: Luck)
    requires i < |s.calls| && s.calls[i].pos != Done
    ensures var c, r := s.calls[i], Run(s, CallEvents(s.world, s.calls[i], i, luck));
      && r.current == s.current && r.calls == s.calls[..i] + s.calls[i + 1..]
      && r.world == Alone(s.world, c, luck)
      && r.kept == if Keeps(s.world, c, luck) then s.kept + [c.t] else s.kept
    decreases Rank(s.calls[i].pos)
  {
    var c := s.calls[i];
    var ok := OkAt(c.pos, luck);
    var (w, p) := Next(s.world, c, ok);
    var s' := AfterStep(s, i, ok);
    var rest := CallEvents(w, c.(pos := p), i, luck);
    Sinks(s.world, c, ok);
    assert ([Advance(i, ok)] + rest)[1..] == rest;
    assert Run(s, [Advance(i, ok)] + rest) == Run(s', rest);
    if p != Done {
      assert s'.calls[i] == c.(pos := p);
      assert s'.calls[..i] == s.calls[..i] && s'.calls[i + 1..] == s.calls[i + 1..];
      CallRuns(s', i, luck);
      StepKeepsFate(s.world, c, luck);
    }
  }

  lemma StepKeepsFate(w: World, c: Call, luck: Luck)
    requires c.pos != Done && !c.pos.AtWrite?
    ensures var (w', p) := Next(w, c, OkAt(c.pos, luck));
      if p == Done then !Keeps(w, c, luck) else Keeps(w', c.(pos := p), luck) == Keeps(w, c, luck)
  {
  }

  /** The same requests, calls and outages, with every call in its steps. */
  function EventsOf(a: ML.System, e: ML.Event): seq<Event> {
    match e
    case Ask(r) => [Ask(r)]
    case Deliver(i, luck) => if i < |a.pending| then CallEvents(a.world, Begin(a.pending[i]), i, luck) else []
    case Crash => [Crash]
    case Restart => [Restart]
  }

  function Expand(w: World, events: seq<ML.Event>): seq<Event> {
    if events == [] then []
    else Expand(w, events[..|events| - 1]) + EventsOf(ML.Run(ML.Boot(w), events[..|events| - 1]), events[|events| - 1])
  }

  predicate Mirrors(a: ML.System, b: System) {
    && a.current == b.current && a.world == b.world && a.kept == b.kept
    && |a.pending| == |b.calls| && forall k :: 0 <= k < |a.pending| ==> b.calls[k] == Begin(a.pending[k])
  }

  lemma StepMirrors(a: ML.System, b: System, e: ML.Event)
    requires Mirrors(a, b)
    ensures Mirrors(ML.Step(a, e), Run(b, EventsOf(a, e)))
  {
    match e
    case Deliver(i, luck) =>
      if i < |a.pending| {
        CallRuns(b, i, luck);
        AloneIsEnforce(a.world, a.pending[i], luck);
      }
    case Ask(r) => OneEvent(b, Ask(r));
    case Crash => OneEvent(b, Crash);
    case Restart => OneEvent(b, Restart);
  }

  lemma OneEvent(s: System, e: Event)
    ensures Run(s, [e]) == Step(s, e)
  {
    assert [e][1..] == [];
  }

  /** Taking calls one at a time is taking those interleavings in which the steps of a call follow each
      other: the results about such calls are results about these runs. */
  lemma {:induction false} OneAtATime(w: World, events: seq<ML.Event>)
    ensures Mirrors(ML.Run(ML.Boot(w), events), Run(Boot(w), Expand(w, events)))
    decreases events
  {
    if events != [] {
      var init, e := events[..|events| - 1], events[|events| - 1];
      OneAtATime(w, init);
      RunAppend(Boot(w), Expand(w, init), EventsOf(ML.Run(ML.Boot(w), init), e));
      StepMirrors(ML.Run(ML.Boot(w), init), Run(Boot(w), Expand(w, init)), e);
    }
  }

  // ---------- a run that overlaps ----------

  lemma Cons(s: System, e: Event, rest: seq<Event>)
    ensures Run(s, [e] + rest) == Run(Step(s, e), rest)
  {
    assert ([e] + rest)[1..] == rest;
  }

  lemma Three(s: System, a: Event, b: Event, c: Event)
    ensures Run(s, [a, b, c]) == Step(Step(Step(s, a), b), c)
  {
    Cons(s, a, [b, c]);
    Cons(Step(s, a), b, [c]);
    OneEvent(Step(Step(s, a), b), c);
    assert [a, b, c] == [a] + [b, c] && [b, c] == [b] + [c];
  }

  /** The changes of the run below. */
  const DOWN := Transition(Nominal, Degraded, "hot")
  const HALT := Transition(Degraded, Safe, "fault")

  /** Two steps down: the first call writes its profile, the second stops the encoder, the first sees it
      inactive and starts it; both read the history before either writes it. */
  function OverlapRun(): seq<Event> {
    [Ask(Degrade("hot")), Ask(To(Safe, "fault")), Advance(0, true)] + ([Advance(1, true), Advance(1, true), Advance(0, true)]
    + ([Advance(0, true), Advance(0, true), Advance(0, true)] + [Advance(1, true), Advance(0, true), Advance(0, true)]))
  }

  /** With nothing failing and the SAFE call last to finish, SAFE streams; and the first change is missing
      from the history. */
  lemma OverlappingCallsStream(w: World)
    requires w.encoder.Running? && w.history != NotAList
    ensures var s := Run(Boot(w), OverlapRun());
      && s.calls == [] && s.current == Safe && s.kept == [DOWN, HALT]
      && s.world.encoder == Running(Wanted(Degraded))
      && s.world.history == Entries(Last(Past(w.history) + [HALT], HISTORY_MAX))
  {
    var go0, go1 := Advance(0, true), Advance(1, true);
    var a, b, c := [Ask(Degrade("hot")), Ask(To(Safe, "fault")), go0], [go1, go1, go0], [go0, go0, go0];
    var d := [go1, go0, go0];
    RunAppend(Boot(w), a, b + (c + d));
    Three(Boot(w), a[0], a[1], a[2]);
    Asked(w);
    var s3 := Run(Boot(w), a);
    RunAppend(s3, b, c + d);
    Three(s3, go1, go1, go0);
    StopsFirst(s3, w);
    var s6 := Run(s3, b);
    RunAppend(s6, c, d);
    Three(s6, go0, go0, go0);
    StartsAfter(s6, w);
    var s9 := Run(s6, c);
    Three(s9, go1, go0, go0);
    BothWrite(s9, w);
  }

  lemma Asked(w: World)
    ensures Step(Step(Step(Boot(w), Ask(Degrade("hot"))), Ask(To(Safe, "fault"))), Advance(0, true)) ==
      System(Safe, [Call(DOWN, AtQuery), Call(HALT, AtQuery)], w.(file := Wanted(Degraded)), Some(Degraded), Untouched, [])
  {
    var s1 := Step(Boot(w), Ask(Degrade("hot")));
    assert s1.calls == [Call(DOWN, AtFile)];
    var s2 := Step(s1, Ask(To(Safe, "fault")));
    assert s2.calls == [Call(DOWN, AtFile), Call(HALT, AtQuery)];
  }

  lemma StopsFirst(s: System, w: World)
    requires w.encoder.Running?
    requires s == System(Safe, [Call(DOWN, AtQuery), Call(HALT, AtQuery)], w.(file := Wanted(Degraded)), Some(Degraded), Untouched, [])
    ensures Step(Step(Step(s, Advance(1, true)), Advance(1, true)), Advance(0, true)) ==
      s.(calls := [Call(DOWN, AtEnsure), Call(HALT, AtRead)], world := s.world.(encoder := Stopped), effect := Halted)
  {
    var s1 := Step(s, Advance(1, true));
    assert s1.calls == [Call(DOWN, AtQuery), Call(HALT, AtStop)];
    var s2 := Step(s1, Advance(1, true));
    assert s2.calls == [Call(DOWN, AtQuery), Call(HALT, AtRead)];
  }

  lemma StartsAfter(s: System, w: World)
    requires s.calls == [Call(DOWN, AtEnsure), Call(HALT, AtRead)] && s.wrote == Some(Degraded)
    requires s.world == World(Wanted(Degraded), Stopped, w.history) && w.history != NotAList
    ensures Step(Step(Step(s, Advance(0, true)), Advance(0, true)), Advance(0, true)) ==
      s.(calls := [Call(DOWN, AtWrite(Past(w.history))), Call(HALT, AtRead)],
         world := s.world.(encoder := Running(Wanted(Degraded))), effect := Began(Some(Degraded)))
  {
    var s1 := Step(s, Advance(0, true));
    assert s1.calls == [Call(DOWN, AtStart), Call(HALT, AtRead)];
    var s2 := Step(s1, Advance(0, true));
    assert s2.calls == [Call(DOWN, AtRead), Call(HALT, AtRead)];
  }

  lemma BothWrite(s: System, w: World)
    requires s.calls == [Call(DOWN, AtWrite(Past(w.history))), Call(HALT, AtRead)] && s.kept == []
    requires s.world.history == w.history != NotAList
    ensures var t := Step(Step(Step(s, Advance(1, true)), Advance(0, true)), Advance(0, true));
      && t.calls == [] && t.current == s.current && t.kept == [DOWN, HALT] && t.world.encoder == s.world.encoder
      && t.world.history == Entries(Last(Past(w.history) + [HALT], HISTORY_MAX))
  {
    var s1 := Step(s, Advance(1, true));
    assert s1.calls == [Call(DOWN, AtWrite(Past(w.history))), Call(HALT, AtWrite(Past(w.history)))];
    var s2 := Step(s1, Advance(0, true));
    assert s2.calls == [Call(HALT, AtWrite(Past(w.history)))];
  }
}
