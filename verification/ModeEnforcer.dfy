/** Operating modes (app/services/system_mode.py) and their enforcement on the encoder
    (app/services/mode_enforcer.py), with the failures that its handlers swallow. Timestamps are left
    out of the records. */
module ModeEnforcer {
  import opened Options

  datatype Mode = Nominal | Degraded | LocalOnly | Safe

  function Level(m: Mode): nat {
    match m
    case Nominal => 0
    case Degraded => 1
    case LocalOnly => 2
    case Safe => 3
  }

  function AtLevel(n: nat): Mode
    requires n <= 3
  {
    if n == 0 then Nominal else if n == 1 then Degraded else if n == 2 then LocalOnly else Safe
  }

  datatype Policy = Policy(streamsEnabled: bool, maxFps: nat, maxBitrateKbps: nat)

  function PolicyOf(m: Mode): Policy {
    match m
    case Nominal => Policy(true, 30, 4000)
    case Degraded => Policy(true, 15, 1500)
    case LocalOnly => Policy(true, 15, 2000)
    case Safe => Policy(false, 0, 0)
  }

  /** The signal file's content. The encoder reads it only when it starts. */
  datatype Profile = Profile(name: string, maxFps: nat, maxBitrateKbps: nat, mode: Mode)

  datatype Encoder = Stopped | Running(loaded: Option<Profile>)

  datatype Transition = Transition(previous: Mode, target: Mode, reason: string)

  const HISTORY_MAX := 50

  function Last<T>(s: seq<T>, n: nat): seq<T> {
    if |s| <= n then s else s[|s| - n..]
  }

  /** The history file: missing or unreadable, a list, or JSON that is no list. */
  datatype HistoryFile = Unreadable | Entries(list: seq<Transition>) | NotAList

  datatype World = World(file: Option<Profile>, encoder: Encoder, history: HistoryFile)

  /** What goes well during one enforcement: the status queries get an answer (a failed one reads as
      inactive), the encoder command works, the profile file and the history file can be written. */
  datatype Luck = Luck(seen: bool, seenAgain: bool, command: bool, file: bool, history: bool)

  const ALL_WELL := Luck(true, true, true, true, true)

  /** The profile that each streaming mode asks for. */
  function Wanted(m: Mode): Option<Profile> {
    match m
    case Degraded => Some(Profile("low", 15, 1500, Degraded))
    case LocalOnly => Some(Profile("local", 15, 2000, LocalOnly))
    case _ => None
  }

  function Past(h: HistoryFile): seq<Transition> {
    if h.Entries? then h.list else []
  }

  /** Whether a running encoder is restarted: always but on a promotion straight from SAFE. */
  predicate Restarts(t: Transition) {
    t.target in {Degraded, LocalOnly} || (t.target == Nominal && t.previous in {Degraded, LocalOnly})
  }

  function FileAfter(w: World, t: Transition, luck: Luck): Option<Profile> {
    if t.target == Safe || !luck.file then w.file else Wanted(t.target)
  }

  function EncoderAfter(w: World, t: Transition, luck: Luck): Encoder {
    if t.target == Safe then
      if luck.seen && luck.command then Stopped else w.encoder
    else if w.encoder.Running? then
      if Restarts(t) && luck.seen && luck.command then Running(FileAfter(w, t, luck)) else w.encoder
    else if luck.command then Running(FileAfter(w, t, luck))
    else Stopped
  }

  function HistoryAfter(w: World, t: Transition, luck: Luck): HistoryFile {
    if w.history == NotAList || !luck.history then w.history
    else Entries(Last(Past(w.history) + [t], HISTORY_MAX))
  }

  /** What one enforcement leaves. */
  function Enforce(w: World, t: Transition, luck: Luck): World {
    World(FileAfter(w, t, luck), EncoderAfter(w, t, luck), HistoryAfter(w, t, luck))
  }

  class Enforcer {
    var file: Option<Profile>
    var encoder: Encoder
    var history: HistoryFile

    function State(): World
      reads this
    {
      World(file, encoder, history)
    }

    constructor (w: World)
      ensures State() == w
    {
      file, encoder, history := w.file, w.encoder, w.history;
    }

    predicate IsServiceActive(answered: bool)
      reads this
    {
      answered && encoder.Running?
    }

    method StopPipeline(seen: bool, works: bool)
      modifies this`encoder
      ensures encoder == if seen && works then Stopped else old(encoder)
    {
      if IsServiceActive(seen) {
        if works {
          encoder := Stopped;
        }
      }
    }

    method RestartPipeline(works: bool)
      modifies this`encoder
      ensures encoder == if works then Running(file) else old(encoder)
    {
      if works {
        encoder := Running(file);
      }
    }

    /** Starting a unit that runs does nothing. */
    method EnsurePipelineRunning(seen: bool, works: bool)
      modifies this`encoder
      ensures encoder == if old(encoder).Running? || !works then old(encoder) else Running(file)
    {
      if !IsServiceActive(seen) {
        if works && encoder == Stopped {
          encoder := Running(file);
        }
      }
    }

    method WriteFpsProfile(mode: Mode, maxFps: nat, maxBitrateKbps: nat, works: bool)
      modifies this`file
      ensures file == if !works then old(file) else
        Some(Profile(if mode == Degraded then "low" else "local", maxFps, maxBitrateKbps, mode))
    {
      var profile := if mode == Degraded then "low" else "local";
      if works {
        file := Some(Profile(profile, maxFps, maxBitrateKbps, mode));
      }
    }

    method ClearFpsProfile(works: bool)
      modifies this`file
      ensures file == if works then None else old(file)
    {
      if file != None && works {
        file := None;
      }
    }

    /** On JSON that is no list the append raises, and nothing is written. */
    method PersistHistory(t: Transition, works: bool)
      modifies this`history
      ensures history ==
        if old(history) == NotAList || !works then old(history)
        else Entries(Last(Past(old(history)) + [t], HISTORY_MAX))
    {
      var h: seq<Transition> := [];
      if history.Entries? {
        h := history.list;
      }
      if history == NotAList {
        return;
      }
      h := h + [t];
      h := if |h| > HISTORY_MAX then h[|h| - HISTORY_MAX..] else h;
      if works {
        history := Entries(h);
      }
    }

    method OnModeTransition(t: Transition, luck: Luck)
      modifies this
      ensures State() == Enforce(old(State()), t, luck)
    {
      var policy := PolicyOf(t.target);
      if t.target == Safe {
        StopPipeline(luck.seen, luck.command);
      } else if t.target == Nominal {
        ClearFpsProfile(luck.file);
        if t.previous in {Degraded, LocalOnly} && IsServiceActive(luck.seen) {
          RestartPipeline(luck.command);
        } else {
          EnsurePipelineRunning(luck.seenAgain, luck.command);
        }
      } else if t.target in {Degraded, LocalOnly} {
        WriteFpsProfile(t.target, policy.maxFps, policy.maxBitrateKbps, luck.file);
        if IsServiceActive(luck.seen) {
          RestartPipeline(luck.command);
        } else {
          EnsurePipelineRunning(luck.seenAgain, luck.command);
        }
      }
      PersistHistory(t, luck.history);
    }
  }

  // ---------- the mode itself ----------

  datatype Request =
    | To(target: Mode, reason: string)
    | Degrade(reason: string)
    | Promote(target: Mode, reason: string)

  /** The mode change a request commits under the lock, if any. */
  function Decide(current: Mode, r: Request): Option<Transition> {
    match r
    case To(target, reason) => if target == current then None else Some(Transition(current, target, reason))
    case Degrade(reason) => if current == Safe then None else Some(Transition(current, AtLevel(Level(current) + 1), reason))
    case Promote(target, reason) =>
      if Level(target) >= Level(current) then None else Some(Transition(current, target, reason))
  }

  /** The mode under its lock, and the listener calls that its threads still owe: the lock is released
      before the listener runs. */
  class ModeState {
    var current: Mode
    var pending: seq<Transition>

    constructor ()
      ensures current == Nominal && pending == []
    {
      current, pending := Nominal, [];
    }

    method Set(target: Mode, reason: string)
      modifies this
      ensures current == target && pending == old(pending) + [Transition(old(current), target, reason)]
    {
      pending := pending + [Transition(current, target, reason)];
      current := target;
    }

    method TransitionTo(target: Mode, reason: string) returns (ok: bool)
      modifies this
      ensures ok == Decide(old(current), To(target, reason)).Some?
      ensures current == target
      ensures pending == old(pending) + if ok then [Decide(old(current), To(target, reason)).value] else []
    {
      if current == target {
        return false;
      }
      Set(target, reason);
      ok := true;
    }

    method DegradeOne(reason: string)
      modifies this
      ensures var d := Decide(old(current), Degrade(reason));
        current == (if d.Some? then d.value.target else old(current))
        && pending == old(pending) + if d.Some? then [d.value] else []
    {
      var level := if Level(current) + 1 < Level(Safe) then Level(current) + 1 else Level(Safe);
      var target := AtLevel(level);
      if current == target {
        return;
      }
      Set(target, reason);
    }

    method PromoteTo(target: Mode, reason: string) returns (ok: bool)
      modifies this
      ensures ok == Decide(old(current), Promote(target, reason)).Some?
      ensures current == if ok then target else old(current)
      ensures pending == old(pending) + if ok then [Decide(old(current), Promote(target, reason)).value] else []
    {
      if Level(target) >= Level(current) {
        return false;
      }
      Set(target, reason);
      ok := true;
    }
  }
}

/** Mode requests, listener calls, encoder crashes and restarts in any order, when calls do not overlap: a
    call runs to its end before anything else touches encoder or files. `OverlapLaws` drops this. */
module ModeLaws {
  import opened Options
  import opened ModeEnforcer

  datatype Event =
    | Ask(request: Request)
    | Deliver(i: nat, luck: Luck)  // the i-th outstanding listener call runs
    | Crash                        // or a recovery's stop
    | Restart                      // by the service manager or a recovery; neither asks for the mode

  /** `kept` are the calls that reached the history file. */
  datatype System = System(current: Mode, pending: seq<Transition>, world: World,
                           committed: seq<Transition>, delivered: seq<Transition>, kept: seq<Transition>)

  function Boot(w: World): System {
    System(Nominal, [], w, [], [], [])
  }

  /** The mode last enforced. */
  function Enforced(s: System): Mode {
    if s.delivered == [] then Nominal else s.delivered[|s.delivered| - 1].target
  }

  function Step(s: System, e: Event): System {
    match e
    case Ask(r) =>
      var d := Decide(s.current, r);
      if d.None? then s
      else s.(current := d.value.target, pending := s.pending + [d.value], committed := s.committed + [d.value])
    case Deliver(i, luck) =>
      if i >= |s.pending| then s
      else
        var t := s.pending[i];
        s.(pending := s.pending[..i] + s.pending[i + 1..], world := Enforce(s.world, t, luck),
           delivered := s.delivered + [t],
           kept := if s.world.history != NotAList && luck.history then s.kept + [t] else s.kept)
    case Crash => s.(world := s.world.(encoder := Stopped))
    case Restart => s.(world := s.world.(encoder := Running(s.world.file)))
  }

  function Run(s: System, events: seq<Event>): System {
    if events == [] then s else Step(Run(s, events[..|events| - 1]), events[|events| - 1])
  }

  /** What a mode promises: in SAFE nothing streams; elsewhere the file holds the mode's profile and a
      running encoder has loaded it. */
  predicate Honoured(w: World, m: Mode) {
    if m == Safe then w.encoder == Stopped
    else w.file == Wanted(m) && (w.encoder.Running? ==> w.encoder.loaded == Wanted(m))
  }

  // ---------- one enforcement ----------

  /** Exactly when enforcing a change establishes its mode, from any world and with any failures. A
      SAFE call whose status query gets no answer does not even try to stop a running encoder. */
  lemma EnforceHonoursIff(w: World, t: Transition, luck: Luck)
    ensures Honoured(Enforce(w, t, luck), t.target) <==>
      if t.target == Safe then w.encoder == Stopped || (luck.seen && luck.command)
      else
        && (luck.file || w.file == Wanted(t.target))
        && (w.encoder.Running? && !(Restarts(t) && luck.seen && luck.command) ==> w.encoder.loaded == Wanted(t.target))
  {
  }

  /** When all goes well, which modes hold right after a call: its own, but for a promotion from SAFE
      straight to NOMINAL that finds an encoder running under an override; and, after a SAFE call,
      whatever streaming mode the profile file still names. */
  lemma HonouredAfterCallIff(w: World, t: Transition, m: Mode)
    requires t.previous != t.target
    ensures Honoured(Enforce(w, t, ALL_WELL), m) <==>
      || (t.target == m && !(t.previous == Safe && m == Nominal && w.encoder.Running? && w.encoder.loaded != None))
      || (t.target == Safe && m != Safe && w.file == Wanted(m))
    ensures Enforce(w, t, ALL_WELL).encoder == Stopped <==> t.target == Safe
  {
  }

  /** What the encoder is told in each mode: nothing in NOMINAL, 15 frames a second at 1500 or 2000 kbit/s in
      DEGRADED and LOCAL_ONLY; SAFE leaves the file. */
  lemma ProfilesAre(w: World, t: Transition, luck: Luck)
    requires luck.file
    ensures var file := Enforce(w, t, luck).file;
      match t.target
      case Nominal => file == None
      case Degraded => file == Some(Profile("low", 15, 1500, Degraded))
      case LocalOnly => file == Some(Profile("local", 15, 2000, LocalOnly))
      case Safe => file == w.file
  {
  }

  /** What one call does to the encoder, when its queries are answered and its command works. */
  lemma CommandsAre(w: World, t: Transition, luck: Luck)
    requires luck.seen && luck.seenAgain && luck.command
    ensures var v := Enforce(w, t, luck);
      v.encoder ==
        if t.target == Safe then Stopped
        else if w.encoder == Stopped then Running(v.file)
        else if t.target == Nominal && (t.previous == Nominal || t.previous == Safe) then w.encoder
        else Running(v.file)
  {
    match t.previous
    case Nominal =>
    case Degraded =>
    case LocalOnly =>
    case Safe =>
  }

  /** The ladder of modes. */
  lemma LadderIs(m: Mode, reason: string)
    ensures Decide(m, Degrade(reason)) ==
      match m
      case Nominal => Some(Transition(Nominal, Degraded, reason))
      case Degraded => Some(Transition(Degraded, LocalOnly, reason))
      case LocalOnly => Some(Transition(LocalOnly, Safe, reason))
      case Safe => None
    ensures Decide(m, Promote(Nominal, reason)).Some? <==> m != Nominal
    ensures Decide(m, Promote(Degraded, reason)).Some? <==> m in {LocalOnly, Safe}
    ensures Decide(m, Promote(LocalOnly, reason)).Some? <==> m == Safe
    ensures Decide(m, Promote(Safe, reason)).None?
    ensures forall t :: Decide(m, To(t, reason)) == if t == m then None else Some(Transition(m, t, reason))
    ensures forall t :: Decide(m, Promote(t, reason)).Some? ==> Decide(m, Promote(t, reason)).value == Transition(m, t, reason)
  {
  }

  /** Each commit is a real change, and a request out of SAFE never degrades further. */
  lemma DecideIs(m: Mode, r: Request)
    ensures Decide(m, r).Some? ==> Decide(m, r).value.previous == m != Decide(m, r).value.target
    ensures r.Degrade? && Decide(m, r).Some? ==> Level(Decide(m, r).value.target) == Level(m) + 1
    ensures r.Degrade? ==> (Decide(m, r).None? <==> m == Safe)
    ensures r.Promote? ==> (Decide(m, r).Some? <==> Level(r.target) < Level(m))
  {
  }

  // ---------- listener calls in commit order ----------

  predicate InOrder(events: seq<Event>) {
    forall e :: e in events && e.Deliver? ==> e.i == 0
  }

  predicate AllWell(events: seq<Event>) {
    forall e :: e in events && e.Deliver? ==> e.luck == ALL_WELL
  }

  /** The outstanding calls lead from the enforced mode to the current one. */
  predicate Linked(from: Mode, pending: seq<Transition>, to: Mode)
    decreases pending
  {
    if pending == [] then from == to
    else pending[0].previous == from != pending[0].target && Linked(pending[0].target, pending[1..], to)
  }

  lemma {:induction false} LinkedGrows(from: Mode, pending: seq<Transition>, t: Transition)
    requires Linked(from, pending, t.previous) && t.previous != t.target
    ensures Linked(from, pending + [t], t.target)
    decreases pending
  {
    if pending == [] {
      assert [t][1..] == [];
    } else {
      LinkedGrows(pending[0].target, pending[1..], t);
      assert (pending + [t])[1..] == pending[1..] + [t];
    }
  }

  /** The calls that ran and those outstanding are the committed changes, in order. */
  predicate Ordered(s: System) {
    Linked(Enforced(s), s.pending, s.current) && s.committed == s.delivered + s.pending
  }

  lemma StepKeepsOrder(s: System, e: Event)
    requires Ordered(s) && (e.Deliver? ==> e.i == 0)
    ensures Ordered(Step(s, e))
  {
    match e
    case Ask(r) =>
      DecideIs(s.current, r);
      if Decide(s.current, r).Some? {
        var t := Decide(s.current, r).value;
        LinkedGrows(Enforced(s), s.pending, t);
        assert s.committed + [t] == s.delivered + (s.pending + [t]);
      }
    case Deliver(_, luck) =>
      if s.pending != [] {
        var t, rest := s.pending[0], s.pending[1..];
        assert s.pending[..0] + rest == rest;
        assert s.delivered + s.pending == (s.delivered + [t]) + rest;
        assert Enforced(Step(s, e)) == t.target;
      }
    case _ => assert Enforced(Step(s, e)) == Enforced(s);
  }

  lemma {:induction false} InOrderRuns(w: World, events: seq<Event>)
    requires InOrder(events)
    ensures Ordered(Run(Boot(w), events))
    decreases events
  {
    if events != [] {
      var init, e := events[..|events| - 1], events[|events| - 1];
      assert e in events;
      InOrderRuns(w, init);
      StepKeepsOrder(Run(Boot(w), init), e);
    }
  }

  /** An encoder runs that should not, or under a profile that it should not: it was restarted while SAFE
      was the enforced mode, and nothing has stopped or restarted it since. A promotion straight to
      NOMINAL does not, and leaves it with the profile that the file then held. */
  predicate Stray(w: World, events: seq<Event>)
    decreases events
  {
    events != [] &&
    var before, e := events[..|events| - 1], events[|events| - 1];
    var s := Run(Boot(w), before);
    match e
    case Ask(_) => Stray(w, before)
    case Crash => false
    case Restart => Enforced(s) == Safe
    case Deliver(i, _) =>
      Stray(w, before) &&
      (i >= |s.pending| || (s.pending[i].previous == Safe && s.pending[i].target == Nominal && s.world.file != None))
  }

  /** What a stray encoder looks like, and that there is none otherwise. */
  predicate StrayShows(s: System, w: World, stray: bool) {
    if stray then
      || (Enforced(s) == Safe && s.world.encoder == Running(s.world.file))
      || (Enforced(s) == Nominal && s.world.file == None && s.world.encoder.Running? && s.world.encoder.loaded != None)
    else HonouredSince(s, w)
  }

  /** The world at boot honours NOMINAL, or some call has run; and then the enforced mode is honoured. */
  predicate HonouredSince(s: System, w: World) {
    Honoured(w, Nominal) || s.delivered != [] ==> Honoured(s.world, Enforced(s))
  }

  lemma CallShows(s: System, w: World, stray: bool)
    requires Ordered(s) && StrayShows(s, w, stray) && s.pending != []
    ensures var t := s.pending[0];
      StrayShows(Step(s, Deliver(0, ALL_WELL)), w, stray && t.previous == Safe && t.target == Nominal && s.world.file != None)
  {
    var t, after := s.pending[0], Step(s, Deliver(0, ALL_WELL));
    HonouredAfterCallIff(s.world, t, t.target);
    assert after.world == Enforce(s.world, t, ALL_WELL);
    assert Enforced(after) == t.target && after.delivered != [];
  }

  lemma OutageShows(s: System, w: World, stray: bool, e: Event)
    requires StrayShows(s, w, stray) && (e.Crash? || e.Restart?)
    ensures StrayShows(Step(s, e), w, e.Restart? && Enforced(s) == Safe)
  {
    assert Enforced(Step(s, e)) == Enforced(s) && Step(s, e).delivered == s.delivered;
  }

  lemma {:induction false} RunShows(w: World, events: seq<Event>)
    requires InOrder(events) && AllWell(events)
    ensures StrayShows(Run(Boot(w), events), w, Stray(w, events))
    decreases events
  {
    if events != [] {
      var before, e := events[..|events| - 1], events[|events| - 1];
      var s := Run(Boot(w), before);
      assert e in events;
      assert InOrder(before) && AllWell(before) by { assert forall x :: x in before ==> x in events; }
      RunShows(w, before);
      InOrderRuns(w, before);
      match e
      case Ask(_) => assert Enforced(Step(s, e)) == Enforced(s);
      case Deliver(_, _) => if s.pending != [] { CallShows(s, w, Stray(w, before)); }
      case _ => OutageShows(s, w, Stray(w, before), e);
    }
  }

  /** With calls in commit order and nothing failing, over any run of requests, calls, crashes and
      restarts: from the first call on (from boot, if NOMINAL held then) the enforced mode is honoured
      if and only if no encoder is stray. */
  lemma HonouredIffNoneStray(w: World, events: seq<Event>)
    requires InOrder(events) && AllWell(events)
    requires Honoured(w, Nominal) || Run(Boot(w), events).delivered != []
    ensures var s := Run(Boot(w), events); Honoured(s.world, Enforced(s)) <==> !Stray(w, events)
  {
    RunShows(w, events);
  }

  /** So at rest, when no call is outstanding: the current mode is honoured if and only if no encoder is
      stray. */
  lemma AtRestIff(w: World, events: seq<Event>)
    requires InOrder(events) && AllWell(events) && Run(Boot(w), events).pending == []
    requires Honoured(w, Nominal) || Run(Boot(w), events).committed != []
    ensures var s := Run(Boot(w), events); Honoured(s.world, s.current) <==> !Stray(w, events)
  {
    InOrderRuns(w, events);
    HonouredIffNoneStray(w, events);
  }

  /** Nobody restarts the encoder while SAFE is the enforced mode. */
  predicate RestartsOutsideSafe(w: World, events: seq<Event>)
    decreases events
  {
    events == [] ||
    var before, e := events[..|events| - 1], events[|events| - 1];
    RestartsOutsideSafe(w, before) && (e.Restart? ==> Enforced(Run(Boot(w), before)) != Safe)
  }

  lemma {:induction false} NoneStrays(w: World, events: seq<Event>)
    requires RestartsOutsideSafe(w, events)
    ensures !Stray(w, events)
    decreases events
  {
    if events != [] { NoneStrays(w, events[..|events| - 1]); }
  }

  lemma InOrderRunsHonour(w: World, events: seq<Event>)
    requires InOrder(events) && AllWell(events) && RestartsOutsideSafe(w, events)
    ensures var s := Run(Boot(w), events);
      && HonouredSince(s, w)
      && (s.pending == [] ==> Enforced(s) == s.current && s.delivered == s.committed)
  {
    InOrderRuns(w, events);
    RunShows(w, events);
    NoneStrays(w, events);
  }

  /** So at rest, if nobody restarts the encoder under SAFE: SAFE has no encoder, and any other mode's
      running encoder has that mode's profile. */
  lemma AtRest(w: World, events: seq<Event>)
    requires InOrder(events) && AllWell(events) && RestartsOutsideSafe(w, events) && Run(Boot(w), events).pending == []
    requires Honoured(w, Nominal) || Run(Boot(w), events).committed != []
    ensures var s := Run(Boot(w), events);
      && (s.current == Safe ==> s.world.encoder == Stopped)
      && (s.world.encoder.Running? ==> s.current != Safe && s.world.encoder.loaded == Wanted(s.current))
  {
    InOrderRunsHonour(w, events);
  }

  // ---------- any order ----------

  /** The last thing that touched the encoder was a crash or a SAFE call. */
  predicate Halted(w: World, events: seq<Event>)
    decreases events
  {
    if events == [] then w.encoder == Stopped
    else
      var before, e := events[..|events| - 1], events[|events| - 1];
      var s := Run(Boot(w), before);
      match e
      case Ask(_) => Halted(w, before)
      case Crash => true
      case Restart => false
      case Deliver(i, _) => if i < |s.pending| then s.pending[i].target == Safe else Halted(w, before)
  }

  /** In whatever order the calls run, with crashes and restarts anywhere: the encoder is stopped if and
      only if the last thing that touched it was a crash or a SAFE call. */
  lemma {:induction false} StoppedIff(w: World, events: seq<Event>)
    requires AllWell(events)
    ensures Run(Boot(w), events).world.encoder == Stopped <==> Halted(w, events)
    decreases events
  {
    if events != [] {
      var before, e := events[..|events| - 1], events[|events| - 1];
      assert e in events;
      assert AllWell(before) by { assert forall x :: x in before ==> x in events; }
      StoppedIff(w, before);
    }
  }

  predicate NoOutage(events: seq<Event>) {
    forall e :: e in events ==> !e.Crash? && !e.Restart?
  }

  lemma {:induction false} LastCallRules(w: World, events: seq<Event>)
    requires AllWell(events)
    ensures var s := Run(Boot(w), events); s.delivered != [] ==>
      && (RestartsOutsideSafe(w, events) && Enforced(s) == Safe ==> s.world.encoder == Stopped)
      && (NoOutage(events) ==> (s.world.encoder == Stopped <==> Enforced(s) == Safe))
    decreases events
  {
    if events != [] {
      var before, e := events[..|events| - 1], events[|events| - 1];
      var s := Run(Boot(w), before);
      assert e in events;
      assert forall x :: x in before ==> x in events;
      LastCallRules(w, before);
      if e.Deliver? && e.i < |s.pending| {
        assert Enforced(Step(s, e)) == s.pending[e.i].target;
      } else {
        assert Enforced(Step(s, e)) == Enforced(s) && Step(s, e).delivered == s.delivered;
      }
    }
  }

  /** In whatever order the calls run, without outages the encoder is stopped if and only if the last
      call to run was for SAFE. */
  lemma {:induction false} StoppedIffLastCallSafe(w: World, events: seq<Event>)
    requires AllWell(events) && NoOutage(events) && Run(Boot(w), events).delivered != []
    ensures var s := Run(Boot(w), events); s.world.encoder == Stopped <==> Enforced(s) == Safe
  {
    LastCallRules(w, events);
  }

  /** If nobody ever restarts under SAFE, a restart by somebody who keeps to that leaves the encoder
      stopped if and only if the last call to run was for SAFE. */
  lemma {:induction false} RestartStaysStoppedIff(w: World, events: seq<Event>)
    requires AllWell(events) && RestartsOutsideSafe(w, events)
    ensures var s := Run(Boot(w), events);
      (if Enforced(s) == Safe then s else Step(s, Restart)).world.encoder == Stopped <==> Enforced(s) == Safe
  {
    LastCallRules(w, events);
  }

  /** The exact condition for SAFE at rest: every call has run and the mode is SAFE, and then nothing
      streams if and only if the last thing that touched the encoder was a crash or a SAFE call; without
      outages, if and only if the last call to run was for SAFE. */
  lemma {:induction false} SafeAtRestIff(w: World, events: seq<Event>)
    requires AllWell(events)
    requires var s := Run(Boot(w), events); s.pending == [] && s.current == Safe && s.delivered != []
    ensures var s := Run(Boot(w), events); var last := s.delivered[|s.delivered| - 1];
      && (Honoured(s.world, s.current) <==> Halted(w, events))
      && (NoOutage(events) ==> (Honoured(s.world, s.current) <==> last.target == Safe))
      && (RestartsOutsideSafe(w, events) && last.target == Safe ==> Honoured(s.world, s.current))
  {
    StoppedIff(w, events);
    LastCallRules(w, events);
  }

  // ---------- history ----------

  lemma LastOfLast<T>(s: seq<T>, x: T, n: nat)
    requires n > 0
    ensures Last(Last(s, n) + [x], n) == Last(s + [x], n)
  {
  }

  predicate Recorded(s: System, w: World) {
    s.world.history == if s.kept == [] then w.history else Entries(Fifty(Past(w.history) + s.kept))
  }

  /** The last fifty of a list. */
  function Fifty(all: seq<Transition>): seq<Transition> {
    if |all| <= 50 then all else all[|all| - 50..]
  }

  lemma StepKeepsRecord(s: System, e: Event, w: World)
    requires Recorded(s, w)
    ensures Recorded(Step(s, e), w)
  {
    if e.Deliver? && e.i < |s.pending| {
      var t := s.pending[e.i];
      if s.world.history != NotAList && e.luck.history {
        HistoryGrows(w.history, s.world.history, s.kept, t);
        assert Step(s, e).kept == s.kept + [t];
      } else {
        assert Step(s, e).kept == s.kept && Step(s, e).world.history == s.world.history;
      }
    } else {
      assert Step(s, e).kept == s.kept && Step(s, e).world.history == s.world.history;
    }
  }

  /** In any order of listener calls and with any failures, the history file holds the last fifty
      changes that could be written to it. */
  lemma {:induction false} AnyOrderRuns(w: World, events: seq<Event>)
    ensures Recorded(Run(Boot(w), events), w)
    decreases events
  {
    if events != [] {
      AnyOrderRuns(w, events[..|events| - 1]);
      StepKeepsRecord(Run(Boot(w), events[..|events| - 1]), events[|events| - 1], w);
    }
  }

  lemma HistoryGrows(first: HistoryFile, now: HistoryFile, done: seq<Transition>, t: Transition)
    requires now == if done == [] then first else Entries(Last(Past(first) + done, HISTORY_MAX))
    ensures Last(Past(now) + [t], HISTORY_MAX) == Last(Past(first) + (done + [t]), HISTORY_MAX)
  {
    assert Past(first) + (done + [t]) == Past(first) + done + [t];
    if done == [] {
      assert Past(first) + done == Past(first);
    } else {
      LastOfLast(Past(first) + done, t, HISTORY_MAX);
    }
  }

  /** Everything delivered is kept when nothing fails and the file is not some other JSON. */
  lemma {:induction false} AllKept(w: World, events: seq<Event>)
    requires AllWell(events) && w.history != NotAList
    ensures var s := Run(Boot(w), events); s.kept == s.delivered && s.world.history != NotAList
    decreases events
  {
    if events != [] {
      var e := events[|events| - 1];
      assert e in events;
      AllKept(w, events[..|events| - 1]);
    }
  }

  /** With the calls in commit order and nothing failing, the history file is the last fifty committed
      changes. */
  lemma HistoryIsCommitted(w: World, events: seq<Event>)
    requires InOrder(events) && AllWell(events) && w.history != NotAList
    ensures var s := Run(Boot(w), events);
      s.pending == [] && s.committed != [] ==> s.world.history == Entries(Fifty(Past(w.history) + s.committed))
  {
    InOrderRuns(w, events);
    AnyOrderRuns(w, events);
    AllKept(w, events);
    var s := Run(Boot(w), events);
    if s.pending == [] {
      assert s.delivered + [] == s.delivered;
      assert s.kept == s.committed;
    }
  }

  /** The lock is released before the listener runs, so a later change's call can run first. Two steps
      down whose calls swap leave the mode SAFE with the encoder running. */
  lemma OvertakenSafeStreams(w: World)
    ensures var events := [Ask(Degrade("hot")), Ask(To(Safe, "fault")), Deliver(1, ALL_WELL), Deliver(0, ALL_WELL)];
      var s := Run(Boot(w), events);
      s.pending == [] && s.current == Safe && s.world.encoder == Running(Wanted(Degraded))
  {
    FourSteps(Boot(w), Ask(Degrade("hot")), Ask(To(Safe, "fault")), Deliver(1, ALL_WELL), Deliver(0, ALL_WELL));
    OvertakenSteps(w);
  }

  lemma OvertakenSteps(w: World)
    ensures
      var asked := Step(Step(Boot(w), Ask(Degrade("hot"))), Ask(To(Safe, "fault")));
      var s := Step(Step(asked, Deliver(1, ALL_WELL)), Deliver(0, ALL_WELL));
      s.pending == [] && s.current == Safe && s.world.encoder == Running(Wanted(Degraded))
  {
    var a, b := Transition(Nominal, Degraded, "hot"), Transition(Degraded, Safe, "fault");
    var s1 := Step(Boot(w), Ask(Degrade("hot")));
    assert s1.pending == [a] && s1.current == Degraded;
    var s2 := Step(s1, Ask(To(Safe, "fault")));
    assert s2.pending == [a, b] && s2.current == Safe && s2.world == w;
    var s3 := Step(s2, Deliver(1, ALL_WELL));
    assert s3.pending == [a] && s3.current == Safe && s3.world.encoder == Stopped;
  }

  lemma FourSteps(s: System, a: Event, b: Event, c: Event, d: Event)
    ensures Run(s, [a, b, c, d]) == Step(Step(Step(Step(s, a), b), c), d)
  {
    RunSnoc(s, [a, b, c], d);
    RunSnoc(s, [a, b], c);
    RunSnoc(s, [a], b);
    RunSnoc(s, [], a);
    assert [a, b, c, d] == [a, b, c] + [d] && [a, b, c] == [a, b] + [c] && [a, b] == [a] + [b] && [a] == [] + [a];
  }

  /** A recovery's restart does not ask for the mode: after a SAFE call it streams in SAFE. */
  lemma RecoveryStreamsInSafe(w: World)
    ensures var events := [Ask(To(Safe, "fault")), Deliver(0, ALL_WELL), Restart];
      var s := Run(Boot(w), events);
      s.pending == [] && s.current == Safe == Enforced(s) && s.world.encoder == Running(w.file)
  {
    var a, b, c := Ask(To(Safe, "fault")), Deliver(0, ALL_WELL), Restart;
    RunSnoc(Boot(w), [], a);
    RunSnoc(Boot(w), [a], b);
    RunSnoc(Boot(w), [a, b], c);
    assert [] + [a] == [a] && [a] + [b] == [a, b] && [a, b] + [c] == [a, b, c];
    var t := Transition(Nominal, Safe, "fault");
    var s1 := Step(Boot(w), a);
    assert s1.pending == [t];
    var s2 := Step(s1, b);
    assert s2.pending == [] && s2.delivered == [t] && s2.world.file == w.file;
  }

  /** Even restarts that keep out of the current mode SAFE are not enough: one between a promotion to
      NOMINAL and its call loads the old profile, and that call leaves it. */
  lemma StaleProfileAtRest(w: World)
    ensures var up := [Ask(Degrade("hot")), Deliver(0, ALL_WELL), Ask(To(Safe, "fault")), Deliver(0, ALL_WELL)];
      var s := Run(Boot(w), up + [Ask(Promote(Nominal, "ok")), Restart, Deliver(0, ALL_WELL)]);
      s.pending == [] && s.current == Nominal && s.world.file == None && s.world.encoder == Running(Wanted(Degraded))
  {
    var call, up4 := Deliver(0, ALL_WELL), Ask(Promote(Nominal, "ok"));
    var up := [Ask(Degrade("hot")), call, Ask(To(Safe, "fault")), call];
    FourSteps(Boot(w), Ask(Degrade("hot")), call, Ask(To(Safe, "fault")), call);
    SafeAfterDegraded(w);
    ThreeMore(Boot(w), up, up4, Restart, call);
    PromotedOverRestart(Run(Boot(w), up));
  }

  lemma ThreeMore(s: System, events: seq<Event>, a: Event, b: Event, c: Event)
    ensures Run(s, events + [a, b, c]) == Step(Step(Step(Run(s, events), a), b), c)
  {
    ThreeLast(events, a, b, c);
    RunSnoc(s, events, a);
    RunSnoc(s, events + [a], b);
    RunSnoc(s, events + [a] + [b], c);
  }

  lemma ThreeLast(events: seq<Event>, a: Event, b: Event, c: Event)
    ensures events + [a, b, c] == events + [a] + [b] + [c]
  {
  }

  lemma PromotedOverRestart(s: System)
    requires s.pending == [] && s.current == Safe && s.world.file == Wanted(Degraded)
    ensures var t := Step(Step(Step(s, Ask(Promote(Nominal, "ok"))), Restart), Deliver(0, ALL_WELL));
      t.pending == [] && t.current == Nominal && t.world.file == None && t.world.encoder == Running(Wanted(Degraded))
  {
    var t := Transition(Safe, Nominal, "ok");
    var s1 := Step(s, Ask(Promote(Nominal, "ok")));
    assert s1.pending == [t] && s1.current == Nominal && s1.world == s.world;
    var s2 := Step(s1, Restart);
    assert s2.pending == [t] && s2.world.encoder == Running(Wanted(Degraded));
  }

  lemma SafeAfterDegraded(w: World)
    ensures var call := Deliver(0, ALL_WELL);
      var s := Step(Step(Step(Step(Boot(w), Ask(Degrade("hot"))), call), Ask(To(Safe, "fault"))), call);
      s.pending == [] && s.current == Safe && s.world.file == Wanted(Degraded)
  {
    var call := Deliver(0, ALL_WELL);
    var a, b := Transition(Nominal, Degraded, "hot"), Transition(Degraded, Safe, "fault");
    var s1 := Step(Boot(w), Ask(Degrade("hot")));
    assert s1.pending == [a] && s1.current == Degraded;
    var s2 := Step(s1, call);
    assert s2.pending == [] && s2.current == Degraded && s2.world.file == Wanted(Degraded);
    var s3 := Step(s2, Ask(To(Safe, "fault")));
    assert s3.pending == [b] && s3.current == Safe;
  }

  lemma RunSnoc(s: System, events: seq<Event>, e: Event)
    ensures Run(s, events + [e]) == Step(Run(s, events), e)
  {
    assert (events + [e])[..|events|] == events;
  }
}
