/** What the limiter guarantees over whole runs: forgetting stale clients is unobservable exactly
    when an idle minute refills a bucket, admissions are bounded in every window, and a paced
    client is never refused. */
module RateLimitLaws {
  import opened RateLimit

  // ---------- one bucket ----------

  predicate Sane(p: Policy, b: Level, now: real) {
    0.0 <= b.tokens <= p.burst && b.last <= now
  }

  predicate SaneTable(p: Policy, t: Table, now: real) {
    forall k :: k in t.levels ==> Sane(p, t.levels[k], now)
  }

  lemma GainFacts(p: Policy, a: real, b: real)
    requires p.Valid()
    ensures Gain(p, 0.0) == 0.0
    ensures a <= b ==> Gain(p, a) <= Gain(p, b)
    ensures Gain(p, a + b) == Gain(p, a) + Gain(p, b)
  {
    if a <= b {
      assert (b - a) * p.rate >= 0.0;
    }
  }

  /** Time earns tokens at the policy's rate. */
  lemma GainIs(p: Policy, dt: real)
    ensures Gain(p, dt) == p.rate * dt
  {
  }

  /** One request on a bucket, in numbers: what it holds after the time it was left alone, never more than
      the capacity; one token is spent exactly when a whole one is there. */
  lemma SpendIs(p: Policy, b: Level, now: real)
    ensures var held := if b.tokens + p.rate * (now - b.last) < p.burst then b.tokens + p.rate * (now - b.last) else p.burst;
      var (after, admitted) := Spend(p, b, now);
      (admitted <==> held >= 1.0) && after.last == now && after.tokens == if held >= 1.0 then held - 1.0 else held
  {
    GainIs(p, now - b.last);
  }

  /** One request on the limiter, in numbers: who is forgotten before it, what its client may spend, and that
      nobody else's bucket is touched. */
  lemma StepIs(p: Policy, t: Table, r: Request)
    ensures var swept := r.tClean - t.lastCleanup > 60.0;
      var forgotten := r.client !in t.levels || (swept && r.tClean - t.levels[r.client].last > 60.0);
      var (after, admitted) := Step(p, t, r, true);
      && (after.levels[r.client], admitted) == Spend(p, if forgotten then Level(p.burst, r.tNew) else t.levels[r.client], r.tUse)
      && after.lastCleanup == (if swept then r.tClean else t.lastCleanup)
      && forall k :: k != r.client ==>
           (k in after.levels <==> k in t.levels && !(swept && r.tClean - t.levels[k].last > 60.0))
           && (k in after.levels ==> after.levels[k] == t.levels[k])
  {
  }

  lemma LevelSane(p: Policy, t: Table, r: Request, evict: bool, now: real)
    requires p.Valid() && SaneTable(p, t, now) && now <= r.tClean <= r.tNew <= r.tUse
    ensures var b := LevelFor(p, if evict then Sweep(t, r.tClean) else t, r);
      Sane(p, b, r.tUse) && Gain(p, r.tUse - b.last) >= 0.0
  {
    var s := if evict then Sweep(t, r.tClean) else t;
    if r.client in s.levels { assert Sane(p, t.levels[r.client], now); }
    GainFacts(p, 0.0, r.tUse - LevelFor(p, s, r).last);
  }

  /** Tokens stay within [0, burst] through every step of either limiter. */
  lemma StepKeepsSane(p: Policy, t: Table, r: Request, evict: bool, now: real)
    requires p.Valid() && SaneTable(p, t, now) && now <= r.tClean <= r.tNew <= r.tUse
    ensures SaneTable(p, Step(p, t, r, evict).0, r.tUse)
  {
    var s := if evict then Sweep(t, r.tClean) else t;
    LevelSane(p, t, r, evict, now);
    var t' := Step(p, t, r, evict).0;
    assert Sane(p, t'.levels[r.client], r.tUse);
    forall k | k in t'.levels ensures Sane(p, t'.levels[k], r.tUse) {
      if k != r.client { assert t'.levels[k] == t.levels[k]; }
    }
  }

  // ---------- forgetting is unobservable ----------

  /** The table that forgets agrees with the one that does not, except for clients idle for longer
      than the cleanup age, which only the latter still remembers. */
  predicate Related(p: Policy, te: Table, tf: Table, now: real) {
    && te.levels.Keys <= tf.levels.Keys
    && (forall k :: k in te.levels ==> te.levels[k] == tf.levels[k])
    && (forall k :: k in tf.levels && k !in te.levels ==> now - tf.levels[k].last > CLEANUP_SEC)
    && SaneTable(p, tf, now)
  }

  lemma StepsAgree(p: Policy, te: Table, tf: Table, r: Request, now: real)
    requires p.Valid() && Gain(p, CLEANUP_SEC) >= p.burst
    requires Related(p, te, tf, now) && now <= r.tClean <= r.tNew <= r.tUse
    ensures Step(p, te, r, true).1 == Step(p, tf, r, false).1
    ensures Related(p, Step(p, te, r, true).0, Step(p, tf, r, false).0, r.tUse)
  {
    var s := Sweep(te, r.tClean);
    StepKeepsSane(p, tf, r, false, now);
    if r.client in tf.levels && r.client !in s.levels {
      var b := tf.levels[r.client];
      LevelSane(p, tf, r, false, now);
      GainFacts(p, CLEANUP_SEC, r.tUse - b.last);
      GainFacts(p, 0.0, r.tUse - r.tNew);
      assert Refilled(p, b, r.tUse) == p.burst == Refilled(p, Level(p.burst, r.tNew), r.tUse);
    } else if r.client in s.levels {
      assert LevelFor(p, s, r) == LevelFor(p, tf, r);
    }
    var te', tf' := Step(p, te, r, true).0, Step(p, tf, r, false).0;
    assert Spend(p, LevelFor(p, s, r), r.tUse) == Spend(p, LevelFor(p, tf, r), r.tUse);
    forall k | k in te'.levels ensures te'.levels[k] == tf'.levels[k] {
      if k != r.client { assert k in s.levels; }
    }
  }

  lemma {:induction false} RunsAgree(p: Policy, te: Table, tf: Table, run: seq<Request>, now: real)
    requires p.Valid() && Gain(p, CLEANUP_SEC) >= p.burst
    requires Related(p, te, tf, now) && Clocked(run, now)
    ensures Decisions(p, te, run, true) == Decisions(p, tf, run, false)
    decreases run
  {
    if run != [] {
      StepsAgree(p, te, tf, run[0], now);
      RunsAgree(p, Step(p, te, run[0], true).0, Step(p, tf, run[0], false).0, run[1..], run[0].tUse);
    }
  }

  /** A capacity below one token admits nobody, so the two limiters agree on every request. */
  lemma {:induction false} TinyBurstRefuses(p: Policy, t: Table, run: seq<Request>, evict: bool, now: real)
    requires p.Valid() && p.burst < 1.0 && SaneTable(p, t, now) && Clocked(run, now)
    ensures forall i :: 0 <= i < |run| ==> !Decisions(p, t, run, evict)[i]
    decreases run
  {
    if run != [] {
      StepKeepsSane(p, t, run[0], evict, now);
      TinyBurstRefuses(p, Step(p, t, run[0], evict).0, run[1..], evict, run[0].tUse);
    }
  }

  // ---------- a run that tells them apart ----------

  predicate Diverges(p: Policy, te: Table, tf: Table, run: seq<Request>, now: real) {
    Clocked(run, now) && Decisions(p, te, run, true) != Decisions(p, tf, run, false)
  }

  function Hit(at: real): Request {
    Request("c", at, at, at)
  }

  /** From an empty table, whenever an idle minute cannot refill the bucket: the run on which only the
      limiter that forgets exceeds the window bound. */
  lemma EvictionShows(p: Policy) returns (run: seq<Request>)
    requires p.Valid() && p.burst >= 1.0 && 60.0 * p.rate < p.burst
    ensures Diverges(p, Table(map[], 0.0), Table(map[], 0.0), run, 0.0)
  {
    RefillsIs(p);
    run := ForgettingExceeds(p);
    KeptWithinGain(p, 0.0, run, "c", 0, |run|);
  }

  /** A cleanup period, 60 seconds, refills a bucket. */
  predicate Refills(p: Policy) {
    60.0 * p.rate >= p.burst
  }

  lemma RefillsIs(p: Policy)
    ensures Refills(p) <==> Gain(p, CLEANUP_SEC) >= p.burst
  {
    GainIs(p, CLEANUP_SEC);
  }

  ghost predicate Unobservable(p: Policy) {
    forall start: real, run: seq<Request> :: Clocked(run, start) ==>
      Decisions(p, Table(map[], start), run, true) == Decisions(p, Table(map[], start), run, false)
  }

  /** Forgetting stale clients never changes a decision, in any run of any clients, exactly when an
      idle cleanup period refills a bucket (or the capacity admits nobody). */
  lemma EvictionUnobservableIff(p: Policy)
    requires p.Valid()
    ensures Unobservable(p) <==> (60.0 * p.rate >= p.burst || p.burst < 1.0)
  {
    RefillsIs(p);
    if Refills(p) || p.burst < 1.0 {
      forall start: real, run: seq<Request> | Clocked(run, start)
        ensures Decisions(p, Table(map[], start), run, true) == Decisions(p, Table(map[], start), run, false)
      {
        var t := Table(map[], start);
        if p.burst < 1.0 {
          TinyBurstRefuses(p, t, run, true, start);
          TinyBurstRefuses(p, t, run, false, start);
        } else {
          RunsAgree(p, t, t, run, start);
        }
      }
    } else {
      var run := EvictionShows(p);
    }
  }

  lemma DefaultsUnobservable()
    ensures Unobservable(DEFAULT_POLICY) && Unobservable(ADMIN_POLICY)
    ensures DEFAULT_POLICY == Policy(30.0, 60.0) && ADMIN_POLICY == Policy(5.0 / 60.0, 5.0)
  {
    EvictionUnobservableIff(DEFAULT_POLICY);
    EvictionUnobservableIff(ADMIN_POLICY);
  }

  // ---------- how much gets through ----------

  function Admitted(run: seq<Request>, ds: seq<bool>, client: string): nat
    requires |run| == |ds|
    decreases run
  {
    if run == [] then 0
    else (if run[0].client == client && ds[0] then 1 else 0) + Admitted(run[1..], ds[1..], client)
  }

  function After(p: Policy, t: Table, run: seq<Request>, evict: bool): Table
    decreases run
  {
    if run == [] then t else After(p, Step(p, t, run[0], evict).0, run[1..], evict)
  }

  /** What the client could spend at `at` if it is remembered, a full bucket if it is not. */
  function Avail(p: Policy, t: Table, client: string, at: real): real {
    if client in t.levels then Refilled(p, t.levels[client], at) else p.burst
  }

  lemma AvailGrowth(p: Policy, t: Table, client: string, at: real, later: real)
    requires p.Valid() && SaneTable(p, t, at) && at <= later
    ensures Avail(p, t, client, later) <= Avail(p, t, client, at) + Gain(p, later - at)
  {
    GainFacts(p, 0.0, later - at);
    if client in t.levels {
      var b := t.levels[client];
      GainFacts(p, at - b.last, later - at);
      assert (at - b.last) + (later - at) == later - b.last;
    }
  }

  /** What a client spends comes out of what it had. */
  lemma SpendFromAvail(p: Policy, t: Table, r: Request, client: string, now: real)
    requires p.Valid() && SaneTable(p, t, now) && now <= r.tClean <= r.tNew <= r.tUse
    ensures var (t', ok) := Step(p, t, r, false);
      0.0 <= Avail(p, t', client, r.tUse) <= Avail(p, t, client, r.tUse) - (if ok && r.client == client then 1.0 else 0.0)
  {
    StepKeepsSane(p, t, r, false, now);
    LevelSane(p, t, r, false, now);
    var t' := Step(p, t, r, false).0;
    GainFacts(p, 0.0, 0.0);
    if r.client == client {
      GainFacts(p, 0.0, r.tUse - r.tNew);
      assert t'.levels[client].last == r.tUse && r.tUse - r.tUse == 0.0;
      assert Sane(p, t'.levels[client], r.tUse);
    } else if client in t.levels {
      assert Sane(p, t.levels[client], now);
      GainFacts(p, 0.0, r.tUse - t.levels[client].last);
    }
  }

  lemma {:induction false} AdmittedFromAvail(p: Policy, t: Table, run: seq<Request>, client: string, now: real)
    requires p.Valid() && SaneTable(p, t, now) && Clocked(run, now) && run != []
    ensures Admitted(run, Decisions(p, t, run, false), client) as real
      <= Avail(p, t, client, run[0].tUse) + Gain(p, run[|run| - 1].tUse - run[0].tUse)
    decreases run
  {
    var r := run[0];
    var (t', ok) := Step(p, t, r, false);
    StepKeepsSane(p, t, r, false, now);
    SpendFromAvail(p, t, r, client, now);
    assert Decisions(p, t, run, false)[1..] == Decisions(p, t', run[1..], false);
    if |run| == 1 {
      GainFacts(p, 0.0, 0.0);
      assert r.tUse - r.tUse == 0.0;
    } else {
      var next, end := run[1].tUse, run[|run| - 1].tUse;
      AdmittedFromAvail(p, t', run[1..], client, r.tUse);
      AvailGrowth(p, t', client, r.tUse, next);
      GainFacts(p, next - r.tUse, end - next);
      assert (next - r.tUse) + (end - next) == end - r.tUse;
    }
  }

  lemma {:induction false} Split(p: Policy, t: Table, run: seq<Request>, i: nat, evict: bool)
    requires i <= |run|
    ensures Decisions(p, t, run, evict) == Decisions(p, t, run[..i], evict) + Decisions(p, After(p, t, run[..i], evict), run[i..], evict)
    decreases run
  {
    if i > 0 {
      var t' := Step(p, t, run[0], evict).0;
      Split(p, t', run[1..], i - 1, evict);
      assert run[..i][1..] == run[1..][..i - 1] && run[1..][i - 1..] == run[i..];
    } else {
      assert run[..i] == [] && run[i..] == run;
    }
  }

  lemma {:induction false} SaneHalfway(p: Policy, t: Table, run: seq<Request>, i: nat, evict: bool, now: real)
    requires p.Valid() && SaneTable(p, t, now) && Clocked(run, now) && i <= |run|
    ensures var at := if i == 0 then now else run[i - 1].tUse;
      SaneTable(p, After(p, t, run[..i], evict), at) && Clocked(run[i..], at) && Clocked(run[..i], now)
    decreases run
  {
    if i > 0 {
      StepKeepsSane(p, t, run[0], evict, now);
      SaneHalfway(p, Step(p, t, run[0], evict).0, run[1..], i - 1, evict, run[0].tUse);
      assert run[..i][1..] == run[1..][..i - 1] && run[1..][i - 1..] == run[i..];
    } else {
      assert run[..i] == [] && run[i..] == run;
    }
  }

  /** One client's admissions in the window from request `i` to before `j` stay within the capacity and
      what the window refills. */
  predicate WithinBound(p: Policy, start: real, run: seq<Request>, client: string, i: nat, j: nat, evict: bool)
    requires i < j <= |run|
  {
    var ds := Decisions(p, Table(map[], start), run, evict);
    Admitted(run[i..j], ds[i..j], client) as real <= p.burst + p.rate * (run[j - 1].tUse - run[i].tUse)
  }

  predicate WithinGain(p: Policy, start: real, run: seq<Request>, client: string, i: nat, j: nat, evict: bool)
    requires i < j <= |run|
  {
    var ds := Decisions(p, Table(map[], start), run, evict);
    Admitted(run[i..j], ds[i..j], client) as real <= p.burst + Gain(p, run[j - 1].tUse - run[i].tUse)
  }

  lemma WithinIs(p: Policy, start: real, run: seq<Request>, client: string, i: nat, j: nat, evict: bool)
    requires i < j <= |run|
    ensures WithinBound(p, start, run, client, i, j, evict) <==> WithinGain(p, start, run, client, i, j, evict)
  {
    GainIs(p, run[j - 1].tUse - run[i].tUse);
  }

  /** A limiter that never forgets keeps the bound in every window of every run, however many other
      clients it serves. */
  lemma KeptWindowBound(p: Policy, start: real, run: seq<Request>, client: string, i: nat, j: nat)
    requires p.Valid() && Clocked(run, start) && i < j <= |run|
    ensures WithinBound(p, start, run, client, i, j, false)
  {
    KeptWithinGain(p, start, run, client, i, j);
    WithinIs(p, start, run, client, i, j, false);
  }

  lemma KeptWithinGain(p: Policy, start: real, run: seq<Request>, client: string, i: nat, j: nat)
    requires p.Valid() && Clocked(run, start) && i < j <= |run|
    ensures WithinGain(p, start, run, client, i, j, false)
  {
    var t := Table(map[], start);
    var at := if i == 0 then start else run[i - 1].tUse;
    WindowDecisions(p, t, run, i, j);
    SaneHalfway(p, t, run, i, false, start);
    SaneHalfway(p, After(p, t, run[..i], false), run[i..], j - i, false, at);
    assert run[i..][..j - i] == run[i..j];
    AdmittedFromAvail(p, After(p, t, run[..i], false), run[i..j], client, at);
  }

  lemma WindowDecisions(p: Policy, t: Table, run: seq<Request>, i: nat, j: nat)
    requires i <= j <= |run|
    ensures Decisions(p, t, run, false)[i..j] == Decisions(p, After(p, t, run[..i], false), run[i..j], false)
  {
    Split(p, t, run, i, false);
    Split(p, After(p, t, run[..i], false), run[i..], j - i, false);
    assert run[i..][..j - i] == run[i..j];
  }

  /** So does one that forgets, when its cleanup period refills a bucket or its capacity admits nobody. */
  lemma WindowBound(p: Policy, start: real, run: seq<Request>, client: string, i: nat, j: nat)
    requires p.Valid() && (60.0 * p.rate >= p.burst || p.burst < 1.0)
    requires Clocked(run, start) && i < j <= |run|
    ensures WithinBound(p, start, run, client, i, j, true)
  {
    EvictionUnobservableIff(p);
    KeptWindowBound(p, start, run, client, i, j);
  }

  // ---------- a run that forgetting lets overdraw ----------

  function End(run: seq<Request>, now: real): real {
    if run == [] then now else run[|run| - 1].tUse
  }

  /** The limiter that forgets admits more of the run than `y` and what the time of the run refills. */
  predicate Exceeds(p: Policy, t: Table, run: seq<Request>, now: real, y: real) {
    Clocked(run, now) && Admitted(run, Decisions(p, t, run, true), "c") as real > y + Gain(p, End(run, now) - now)
  }

  /** An admitted request in front of such a run. */
  lemma ExceedsPrefix(p: Policy, t: Table, at: real, now: real, y: real, rest: seq<Request>) returns (run: seq<Request>)
    requires p.Valid() && now <= at && Step(p, t, Hit(at), true).1
    requires Exceeds(p, Step(p, t, Hit(at), true).0, rest, at, y + Gain(p, at - now) - 1.0)
    ensures Exceeds(p, t, run, now, y) && run == [Hit(at)] + rest
  {
    run := [Hit(at)] + rest;
    assert run[1..] == rest;
    var t' := Step(p, t, Hit(at), true).0;
    assert Decisions(p, t, run, true) == [true] + Decisions(p, t', rest, true);
    assert Decisions(p, t, run, true)[1..] == Decisions(p, t', rest, true);
    assert End(run, now) == End(rest, at);
    GainFacts(p, at - now, End(rest, at) - at);
    assert (at - now) + (End(rest, at) - at) == End(run, now) - now;
  }

  /** A bucket with more than `y` tokens: spend it down, then wait for the last one. */
  lemma {:induction false} GapExceeds(p: Policy, t: Table, now: real, y: real) returns (run: seq<Request>)
    requires p.Valid() && p.burst >= 1.0 && (p.rate > 0.0 || y < 0.0)
    requires "c" in t.levels && t.levels["c"].last == now && 0.0 <= t.levels["c"].tokens <= p.burst && y < t.levels["c"].tokens
    ensures Exceeds(p, t, run, now, y)
    decreases t.levels["c"].tokens.Floor
  {
    var b := t.levels["c"].tokens;
    GainFacts(p, 0.0, 0.0);
    assert now - now == 0.0;
    if y < 0.0 {
      run := [];
    } else if b < 1.0 {
      var wait := (1.0 - b) / p.rate;
      assert Gain(p, wait) == 1.0 - b && wait >= 0.0;
      var at := now + wait;
      assert at - now == wait && at - at == 0.0;
      var t' := Step(p, t, Hit(at), true).0;
      assert Exceeds(p, t', [], at, y + Gain(p, at - now) - 1.0);
      run := ExceedsPrefix(p, t, at, now, y, []);
    } else {
      var t' := Step(p, t, Hit(now), true).0;
      assert t'.levels["c"] == Level(b - 1.0, now);
      var rest := GapExceeds(p, t', now, y - 1.0);
      run := ExceedsPrefix(p, t, now, now, y, rest);
    }
  }

  /** A nearly empty bucket left alone for just over the cleanup age is forgotten, and comes back full. */
  lemma IdleExceeds(p: Policy, t: Table, now: real) returns (run: seq<Request>)
    requires p.Valid() && p.burst >= 1.0 && t.lastCleanup <= now
    requires "c" in t.levels && t.levels["c"].last == now && 0.0 <= t.levels["c"].tokens < 1.0
    requires t.levels["c"].tokens + Gain(p, CLEANUP_SEC) < p.burst
    ensures Exceeds(p, t, run, now, t.levels["c"].tokens)
  {
    var x := t.levels["c"].tokens;
    var slack := p.burst - x - Gain(p, CLEANUP_SEC);
    var extra := if p.rate == 0.0 then 1.0 else slack / (2.0 * p.rate);
    assert p.rate > 0.0 ==> extra > 0.0 && Gain(p, extra) == slack / 2.0;
    var at := now + CLEANUP_SEC + extra;
    GainFacts(p, CLEANUP_SEC, extra);
    assert at - now == CLEANUP_SEC + extra && at - at == 0.0;
    var t' := Step(p, t, Hit(at), true).0;
    assert Step(p, t, Hit(at), true) == (t', true) && t'.levels["c"] == Level(p.burst - 1.0, at);
    var rest := GapExceeds(p, t', at, x + Gain(p, at - now) - 1.0);
    run := ExceedsPrefix(p, t, at, now, x, rest);
  }

  lemma {:induction false} DrainExceeds(p: Policy, t: Table) returns (run: seq<Request>)
    requires p.Valid() && p.burst >= 1.0 && Gain(p, CLEANUP_SEC) < p.burst && t.lastCleanup == 0.0
    requires "c" in t.levels && t.levels["c"].last == 0.0 && 0.0 <= t.levels["c"].tokens <= p.burst - 1.0
    ensures Exceeds(p, t, run, 0.0, t.levels["c"].tokens)
    decreases t.levels["c"].tokens.Floor
  {
    var x := t.levels["c"].tokens;
    GainFacts(p, 0.0, 0.0);
    assert 0.0 - 0.0 == 0.0;
    if x >= 1.0 {
      var rest := DrainExceeds(p, Step(p, t, Hit(0.0), true).0);
      run := ExceedsPrefix(p, t, 0.0, 0.0, x, rest);
    } else if x + Gain(p, CLEANUP_SEC) < p.burst {
      run := IdleExceeds(p, t, 0.0);
    } else {
      run := DrainedExceeds(p, t);
    }
  }

  /** A fraction of a token that refills within the cleanup period: wait for it, spend it, then idle. */
  lemma DrainedExceeds(p: Policy, t: Table) returns (run: seq<Request>)
    requires p.Valid() && p.burst >= 1.0 && Gain(p, CLEANUP_SEC) < p.burst && t.lastCleanup == 0.0
    requires "c" in t.levels && t.levels["c"].last == 0.0 && 0.0 <= t.levels["c"].tokens < 1.0
    requires t.levels["c"].tokens <= p.burst - 1.0 && t.levels["c"].tokens + Gain(p, CLEANUP_SEC) >= p.burst
    ensures Exceeds(p, t, run, 0.0, t.levels["c"].tokens)
  {
    var x := t.levels["c"].tokens;
    assert p.rate > 0.0;
    var at := (1.0 - x) / p.rate;
    assert Gain(p, at) == 1.0 - x;
    GainFacts(p, CLEANUP_SEC, at - CLEANUP_SEC);
    assert CLEANUP_SEC + (at - CLEANUP_SEC) == at;
    assert at > CLEANUP_SEC ==> Gain(p, at - CLEANUP_SEC) > 0.0;
    assert 0.0 <= at <= CLEANUP_SEC && at - 0.0 == at;
    var t' := Step(p, t, Hit(at), true).0;
    assert t'.levels["c"] == Level(0.0, at) && t'.lastCleanup == 0.0;
    var rest := IdleExceeds(p, t', at);
    run := ExceedsPrefix(p, t, at, 0.0, x, rest);
  }

  /** From an empty table: drain the bucket to nothing, idle until it is forgotten, drain it again. */
  lemma ForgettingOverdraws(p: Policy) returns (run: seq<Request>)
    requires p.Valid() && p.burst >= 1.0 && 60.0 * p.rate < p.burst
    ensures Clocked(run, 0.0) && run != [] && !WithinBound(p, 0.0, run, "c", 0, |run|, true)
  {
    RefillsIs(p);
    run := ForgettingExceeds(p);
    WithinIs(p, 0.0, run, "c", 0, |run|, true);
  }

  lemma ForgettingExceeds(p: Policy) returns (run: seq<Request>)
    requires p.Valid() && p.burst >= 1.0 && Gain(p, CLEANUP_SEC) < p.burst
    ensures Clocked(run, 0.0) && run != [] && !WithinGain(p, 0.0, run, "c", 0, |run|, true)
  {
    var t := Table(map[], 0.0);
    GainFacts(p, 0.0, 0.0);
    assert 0.0 - 0.0 == 0.0;
    var t' := Step(p, t, Hit(0.0), true).0;
    assert t'.levels["c"] == Level(p.burst - 1.0, 0.0);
    var rest := DrainExceeds(p, t');
    run := ExceedsPrefix(p, t, 0.0, 0.0, p.burst, rest);
    assert run[0..|run|] == run && run[0].tUse == 0.0;
    assert Decisions(p, t, run, true)[0..|run|] == Decisions(p, t, run, true);
  }

  ghost predicate EveryWindowBounded(p: Policy) {
    forall start, run, client, i: nat, j: nat :: Clocked(run, start) && i < j <= |run| ==>
      WithinBound(p, start, run, client, i, j, true)
  }

  /** The exact condition for the limiter as it is, which forgets: every window of every run of every
      client is within the bound if and only if a cleanup period refills a bucket, or the capacity
      admits nobody. */
  lemma WindowBoundIff(p: Policy)
    requires p.Valid()
    ensures EveryWindowBounded(p) <==> (60.0 * p.rate >= p.burst || p.burst < 1.0)
  {
    if 60.0 * p.rate >= p.burst || p.burst < 1.0 {
      forall start, run, client, i: nat, j: nat | Clocked(run, start) && i < j <= |run|
        ensures WithinBound(p, start, run, client, i, j, true)
      {
        WindowBound(p, start, run, client, i, j);
      }
    } else {
      var run := ForgettingOverdraws(p);
    }
  }

  lemma DefaultsBounded()
    ensures EveryWindowBounded(DEFAULT_POLICY) && EveryWindowBounded(ADMIN_POLICY)
  {
    WindowBoundIff(DEFAULT_POLICY);
    WindowBoundIff(ADMIN_POLICY);
  }

  // ---------- a paced client ----------

  /** The client's requests are at least 1/rate apart, counting from `last`, its previous one. */
  predicate Paced(p: Policy, run: seq<Request>, client: string, last: real)
    decreases run
  {
    run == [] ||
    if run[0].client == client then
      (run[0].tUse - last) * p.rate >= 1.0 && Paced(p, run[1..], client, run[0].tUse)
    else
      Paced(p, run[1..], client, last)
  }

  /** A bucket not used since `last` has a token 1/rate later. */
  lemma PacedAdmits(p: Policy, b: Level, last: real, now: real)
    requires p.Valid() && p.burst >= 1.0 && 0.0 <= b.tokens <= p.burst
    requires b.last <= last && (now - last) * p.rate >= 1.0
    ensures Spend(p, b, now).1
  {
    GainFacts(p, now - last, now - b.last);
    GainIs(p, now - last);
    assert Gain(p, now - last) >= 1.0;
  }

  lemma FullAdmits(p: Policy, since: real, now: real)
    requires p.Valid() && p.burst >= 1.0 && since <= now
    ensures Spend(p, Level(p.burst, since), now).1
  {
    GainFacts(p, 0.0, now - since);
  }

  lemma {:induction false} PacedNeverRefused(p: Policy, t: Table, run: seq<Request>, client: string, last: real, now: real, i: nat)
    requires p.Valid() && p.burst >= 1.0 && SaneTable(p, t, now) && Clocked(run, now)
    requires client in t.levels ==> t.levels[client].last <= last
    requires Paced(p, run, client, last)
    requires i < |run| && run[i].client == client
    ensures Decisions(p, t, run, true)[i]
    decreases run
  {
    var r := run[0];
    var s := Sweep(t, r.tClean);
    var t' := Step(p, t, r, true).0;
    StepKeepsSane(p, t, r, true, now);
    if r.client == client {
      if client in s.levels {
        assert Sane(p, t.levels[client], now);
        PacedAdmits(p, s.levels[client], last, r.tUse);
      } else {
        FullAdmits(p, r.tNew, r.tUse);
      }
      assert Step(p, t, r, true).1;
    }
    if i > 0 {
      PacedNeverRefused(p, t', run[1..], client, if r.client == client then r.tUse else last, r.tUse, i - 1);
    }
  }
}
