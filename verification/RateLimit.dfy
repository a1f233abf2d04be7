/** The per-client token-bucket limiter with stale-entry cleanup (app/middleware/rate_limit.py).
    `TokenBucket` and `Limiter` are the source's objects; `Level` and `Table` are their values.
    Both dependencies of the source run the same code with different constants, so one class
    parameterised by `Policy` stands for both. Clock readings are parameters. */
module RateLimit {

  const CLEANUP_SEC: real := 60.0

  /** `rate` is in tokens per second, `burst` is the capacity. */
  datatype Policy = Policy(rate: real, burst: real) {
    predicate Valid() {
      rate >= 0.0 && burst >= 0.0
    }
  }

  const DEFAULT_POLICY := Policy(30.0, 60.0)
  const ADMIN_POLICY := Policy(5.0 / 60.0, 5.0)

  // ---------- values ----------

  datatype Level = Level(tokens: real, last: real)

  datatype Table = Table(levels: map<string, Level>, lastCleanup: real)

  /** One request with the three clock readings the source takes while serving it. */
  datatype Request = Request(client: string, tClean: real, tNew: real, tUse: real)

  /** Tokens earned in `dt` seconds. */
  function Gain(p: Policy, dt: real): real {
    dt * p.rate
  }

  function Refilled(p: Policy, b: Level, now: real): real {
    var t := b.tokens + Gain(p, now - b.last);
    if t < p.burst then t else p.burst
  }

  function Spend(p: Policy, b: Level, now: real): (Level, bool) {
    var t := Refilled(p, b, now);
    if t >= 1.0 then (Level(t - 1.0, now), true) else (Level(t, now), false)
  }

  function Sweep(t: Table, now: real): Table {
    if now - t.lastCleanup > CLEANUP_SEC then
      Table(map k | k in t.levels && !(now - t.levels[k].last > CLEANUP_SEC) :: t.levels[k], now)
    else
      t
  }

  function LevelFor(p: Policy, t: Table, r: Request): Level {
    if r.client in t.levels then t.levels[r.client] else Level(p.burst, r.tNew)
  }

  function Serve(p: Policy, t: Table, r: Request): (Table, bool) {
    var (b, ok) := Spend(p, LevelFor(p, t, r), r.tUse);
    (t.(levels := t.levels[r.client := b]), ok)
  }

  /** One request against the limiter; `evict` says whether stale entries are ever forgotten. */
  function Step(p: Policy, t: Table, r: Request, evict: bool): (Table, bool) {
    Serve(p, if evict then Sweep(t, r.tClean) else t, r)
  }

  function Decisions(p: Policy, t: Table, run: seq<Request>, evict: bool): (ds: seq<bool>)
    ensures |ds| == |run|
    decreases run
  {
    if run == [] then [] else
      var (t', ok) := Step(p, t, run[0], evict);
      [ok] + Decisions(p, t', run[1..], evict)
  }

  /** The readings of a run come from one monotone clock that already shows `from`. */
  predicate Clocked(run: seq<Request>, from: real) {
    run == [] ||
    (from <= run[0].tClean <= run[0].tNew <= run[0].tUse && Clocked(run[1..], run[0].tUse))
  }

  // ---------- the source's objects ----------

  class TokenBucket {
    const rate: real
    const burst: real
    var tokens: real
    var last: real

    constructor (p: Policy, now: real)
      ensures rate == p.rate && burst == p.burst
      ensures View() == Level(p.burst, now)
    {
      rate, burst := p.rate, p.burst;
      tokens, last := p.burst, now;
    }

    function View(): Level
      reads this
    {
      Level(tokens, last)
    }

    method Consume(now: real) returns (ok: bool)
      modifies this
      ensures (View(), ok) == Spend(Policy(rate, burst), old(View()), now)
    {
      var elapsed := now - last;
      assert elapsed * rate == Gain(Policy(rate, burst), now - last);
      last := now;
      tokens := if tokens + elapsed * rate < burst then tokens + elapsed * rate else burst;
      assert tokens == Refilled(Policy(rate, burst), old(View()), now);
      if tokens >= 1.0 {
        tokens := tokens - 1.0;
        return true;
      }
      return false;
    }
  }

  class Limiter {
    const policy: Policy
    var buckets: map<string, TokenBucket>
    var lastCleanup: real

    /** Every client has a bucket object of its own, made for this limiter's policy. */
    ghost predicate Valid()
      reads this, buckets.Values
    {
      && (forall k :: k in buckets ==> buckets[k].rate == policy.rate && buckets[k].burst == policy.burst)
      && (forall j, k :: j in buckets && k in buckets && j != k ==> buckets[j] != buckets[k])
    }

    ghost function View(): Table
      reads this, buckets.Values
    {
      Table(map k | k in buckets :: buckets[k].View(), lastCleanup)
    }

    constructor (p: Policy, now: real)
      ensures Valid() && policy == p && View() == Table(map[], now)
      ensures buckets == map[]
    {
      policy := p;
      buckets := map[];
      lastCleanup := now;
    }

    method Forget(stale: set<string>)
      modifies this`buckets
      ensures buckets == old(buckets) - stale
    {
      var left := stale;
      while left != {}
        invariant left <= stale && buckets == old(buckets) - (stale - left)
        decreases left
      {
        var k :| k in left;
        assert stale - (left - {k}) == (stale - left) + {k};
        buckets := buckets - {k};
        left := left - {k};
      }
      assert stale - left == stale;
    }

    /** The periodic cleanup at the head of the dependency. */
    method Cleanup(now: real)
      requires Valid()
      modifies this
      ensures Valid() && buckets.Values <= old(buckets.Values)
      ensures View() == Sweep(old(View()), now)
    {
      if now - lastCleanup > CLEANUP_SEC {
        var stale := set k | k in buckets && now - buckets[k].last > CLEANUP_SEC;
        Forget(stale);
        lastCleanup := now;
        assert View().levels == Sweep(old(View()), now).levels;
      }
    }

    /** The bucket of `client`, made on first use. */
    method BucketFor(client: string, now: real) returns (b: TokenBucket)
      requires Valid()
      modifies this
      ensures Valid() && client in buckets && buckets[client] == b && lastCleanup == old(lastCleanup)
      ensures forall k :: k in buckets && k != client ==> k in old(buckets) && buckets[k] == old(buckets)[k]
      ensures old(buckets).Keys <= buckets.Keys
      ensures if client in old(buckets) then b == old(buckets)[client] else fresh(b) && b.View() == Level(policy.burst, now)
    {
      if client !in buckets {
        b := new TokenBucket(policy, now);
        buckets := buckets[client := b];
      }
      b := buckets[client];
    }

    method RequireRateLimit(client: string, tClean: real, tNew: real, tUse: real) returns (ok: bool)
      requires Valid()
      modifies this, buckets.Values
      ensures Valid() && fresh(buckets.Values - old(buckets.Values))
      ensures (View(), ok) == Step(policy, old(View()), Request(client, tClean, tNew, tUse), true)
    {
      Cleanup(tClean);
      ghost var swept := View();
      var bucket := BucketFor(client, tNew);
      ghost var level := bucket.View();
      assert level == LevelFor(policy, swept, Request(client, tClean, tNew, tUse));
      ok := bucket.Consume(tUse);
      assert (bucket.View(), ok) == Spend(policy, level, tUse);
      assert View().levels == swept.levels[client := bucket.View()];
    }
  }
}
