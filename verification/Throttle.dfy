/** The client's token bucket (examples/nextjs/src/lib/bastion/throttle.ts). The clock counts
    milliseconds; levels and rates are reals, so floating-point rounding is left out. */
module Throttle {
  import opened Common

  datatype Config = Config(ratePerSecond: real, capacity: real) {
    predicate Valid() { ratePerSecond > 0.0 && capacity >= 0.0 }
  }

  datatype Bucket = Bucket(tokens: real, lastRefill: Time)

  function Min(x: real, y: real): real { if x <= y then x else y }

  function Seconds(ms: Time): real { ms as real / 1000.0 }

  function Refilled(c: Config, b: Bucket, now: Time): Bucket {
    Bucket(Min(c.capacity, b.tokens + Seconds(now - b.lastRefill) * c.ratePerSecond), now)
  }

  /** One pass of take's loop, which nothing can interrupt: refill, then take if there is one. */
  function Pass(c: Config, b: Bucket, now: Time): Bucket {
    var r := Refilled(c, b, now);
    if r.tokens >= 1.0 then r.(tokens := r.tokens - 1.0) else r
  }

  predicate Grants(c: Config, b: Bucket, now: Time) {
    Refilled(c, b, now).tokens >= 1.0
  }

  function Ceil(x: real): int {
    if x.Floor as real == x then x.Floor else x.Floor + 1
  }

  /** The sleep computed after a pass that granted nothing. */
  function WaitMs(c: Config, tokens: real): int
    requires c.Valid()
  {
    Ceil((1.0 - tokens) / c.ratePerSecond * 1000.0)
  }

  class TokenBucket {
    const config: Config
    var tokens: real
    var lastRefill: Time

    constructor (ratePerSecond: real, capacity: real, now: Time)
      ensures config == Config(ratePerSecond, capacity) && tokens == capacity && lastRefill == now
    {
      config := Config(ratePerSecond, capacity);
      tokens := capacity;
      lastRefill := now;
    }

    method Refill(now: Time)
      modifies this
      ensures Bucket(tokens, lastRefill) == Refilled(config, old(Bucket(tokens, lastRefill)), now)
    {
      var elapsed := Seconds(now - lastRefill);
      lastRefill := now;
      tokens := Min(config.capacity, tokens + elapsed * config.ratePerSecond);
    }

    /** A lone caller. `late` is how much longer than asked each sleep lasted. It needs at most
        two passes, and leaves the bucket as those passes leave it. */
    method Take(now: Time, late: nat) returns (passes: nat)
      requires config.Valid() && config.capacity >= 1.0 && 0.0 <= tokens <= config.capacity && lastRefill <= now
      modifies this
      ensures 1 <= passes <= 2
      ensures var before := old(Bucket(tokens, lastRefill));
        var wait := WaitMs(config, Refilled(config, before, now).tokens);
        Bucket(tokens, lastRefill) ==
          if passes == 1 then Pass(config, before, now) else Pass(config, Pass(config, before, now), now + wait + late)
      ensures 0.0 <= tokens <= config.capacity - 1.0
      ensures passes == 1 ==>
                var level := old(tokens) + Seconds(now - old(lastRefill)) * config.ratePerSecond;
                tokens == (if level <= config.capacity then level else config.capacity) - 1.0 && lastRefill == now
    {
      var time := now;
      passes := 0;
      while true
        invariant passes <= 1 && 0.0 <= tokens <= config.capacity && lastRefill <= time
        invariant passes == 0 ==> time == now && Bucket(tokens, lastRefill) == old(Bucket(tokens, lastRefill))
        invariant passes == 1 ==>
          && Bucket(tokens, lastRefill) == Pass(config, old(Bucket(tokens, lastRefill)), now)
          && time == now + WaitMs(config, Refilled(config, old(Bucket(tokens, lastRefill)), now).tokens) + late
          && Grants(config, Bucket(tokens, lastRefill), time)
        decreases 2 - passes
      {
        LevelStaysInRange(config, Bucket(tokens, lastRefill), time);
        Refill(time);
        passes := passes + 1;
        if tokens >= 1.0 {
          tokens := tokens - 1.0;
          return;
        }
        SleepIsEnough(config, Bucket(tokens, lastRefill), late);
        time := time + WaitMs(config, tokens) + late;
      }
    }
  }

  lemma LevelStaysInRange(c: Config, b: Bucket, now: Time)
    requires c.Valid() && 0.0 <= b.tokens <= c.capacity && b.lastRefill <= now
    ensures 0.0 <= Refilled(c, b, now).tokens <= c.capacity
    ensures 0.0 <= Pass(c, b, now).tokens <= c.capacity
  {
    assert Seconds(now - b.lastRefill) * c.ratePerSecond >= 0.0;
  }

  /** After the computed sleep, or any longer one, the next pass grants. */
  lemma SleepIsEnough(c: Config, b: Bucket, late: nat)
    requires c.Valid() && c.capacity >= 1.0 && 0.0 <= b.tokens < 1.0
    ensures WaitMs(c, b.tokens) >= 0
    ensures Grants(c, b, b.lastRefill + WaitMs(c, b.tokens) + late)
  {
    var deficit := 1.0 - b.tokens;
    var ms := WaitMs(c, b.tokens) + late;
    assert ms as real >= deficit / c.ratePerSecond * 1000.0;
    assert Seconds(ms) >= deficit / c.ratePerSecond;
    ScaleUp(deficit / c.ratePerSecond, Seconds(ms), c.ratePerSecond);
  }

  lemma ScaleUp(x: real, y: real, k: real)
    requires x <= y && k > 0.0
    ensures x * k <= y * k
  {
  }

  /** Nor is it longer than it must be: no shorter sleep, in whole milliseconds, would do. */
  lemma SleepIsLeast(c: Config, b: Bucket, ms: nat)
    requires c.Valid() && 0.0 <= b.tokens < 1.0 && ms < WaitMs(c, b.tokens)
    ensures !Grants(c, b, b.lastRefill + ms)
  {
    var needed := (1.0 - b.tokens) / c.ratePerSecond;
    assert ms as real < needed * 1000.0;
    assert Seconds(ms) < needed;
    assert Seconds(ms) * c.ratePerSecond < needed * c.ratePerSecond;
    assert needed * c.ratePerSecond == 1.0 - b.tokens;
  }

  // ----- every interleaving of callers

  function After(c: Config, b: Bucket, times: seq<Time>): Bucket {
    if times == [] then b else Pass(c, After(c, b, times[..|times| - 1]), times[|times| - 1])
  }

  function Granted(c: Config, b: Bucket, times: seq<Time>, i: nat, j: nat): nat
    requires i <= j <= |times|
    decreases j - i
  {
    if i == j then 0
    else Granted(c, b, times, i, j - 1) + if Grants(c, After(c, b, times[..j - 1]), times[j - 1]) then 1 else 0
  }

  /** The callers' passes in the order they run, under a clock that never goes back. */
  ghost predicate Ordered(b: Bucket, times: seq<Time>) {
    && (forall k | 0 <= k < |times| :: b.lastRefill <= times[k])
    && (forall i, j | 0 <= i <= j < |times| :: times[i] <= times[j])
  }

  lemma {:induction false} LevelInRange(c: Config, b: Bucket, times: seq<Time>)
    requires c.Valid() && 0.0 <= b.tokens <= c.capacity && Ordered(b, times)
    ensures var after := After(c, b, times);
      0.0 <= after.tokens <= c.capacity && after.lastRefill == if times == [] then b.lastRefill else times[|times| - 1]
  {
    if times != [] {
      LevelInRange(c, b, times[..|times| - 1]);
      LevelStaysInRange(c, After(c, b, times[..|times| - 1]), times[|times| - 1]);
    }
  }

  /** What the rate brings in over so many milliseconds: rate x seconds. */
  function Income(c: Config, ms: Time): real { Seconds(ms) * c.ratePerSecond }

  lemma IncomeAdds(c: Config, x: Time, y: Time, z: Time)
    ensures Income(c, y - x) + Income(c, z - y) == Income(c, z - x)
  {
    var p, q, k := Seconds(y - x), Seconds(z - y), c.ratePerSecond;
    assert Seconds(z - x) == p + q;
    assert p * k + q * k == (p + q) * k;
  }

  lemma IncomeGrows(c: Config, x: Time, y: Time)
    requires c.Valid() && x <= y
    ensures Income(c, x) <= Income(c, y)
  {
    ScaleUp(Seconds(x), Seconds(y), c.ratePerSecond);
  }

  lemma PassBalance(c: Config, b: Bucket, now: Time)
    ensures Pass(c, b, now).tokens + (if Grants(c, b, now) then 1.0 else 0.0)
      <= b.tokens + Income(c, now - b.lastRefill)
    ensures Pass(c, b, now).lastRefill == now
  {
  }

  /** A grant costs exactly one token of the refilled level, and no grant costs nothing. */
  lemma AGrantCostsOne(c: Config, b: Bucket, now: Time)
    ensures var level := b.tokens + Income(c, now - b.lastRefill);
      var refilled := if level <= c.capacity then level else c.capacity;
      && (Grants(c, b, now) <==> refilled >= 1.0)
      && Pass(c, b, now) == Bucket(if refilled >= 1.0 then refilled - 1.0 else refilled, now)
  {
  }

  lemma RefillAtOnce(c: Config, b: Bucket)
    requires b.tokens <= c.capacity
    ensures Refilled(c, b, b.lastRefill) == b
  {
    assert Seconds(0) * c.ratePerSecond == 0.0;
  }

  /** The burst: n passes at one instant, over a level that holds n tokens after its refill, all grant,
      and leave the level n lower. */
  lemma {:induction false} Burst(c: Config, b: Bucket, now: Time, times: seq<Time>)
    requires times != [] && (forall k | 0 <= k < |times| :: times[k] == now)
    requires Refilled(c, b, now).tokens >= |times| as real
    ensures Granted(c, b, times, 0, |times|) == |times|
    ensures After(c, b, times) == Bucket(Refilled(c, b, now).tokens - |times| as real, now)
  {
    var n := |times| - 1;
    var before := times[..n];
    if n > 0 {
      Burst(c, b, now, before);
      RefillAtOnce(c, After(c, b, before));
      GrantedOfPrefix(c, b, times, n, n);
    } else {
      assert before == [];
    }
  }

  lemma {:induction false} GrantedOfPrefix(c: Config, b: Bucket, times: seq<Time>, n: nat, j: nat)
    requires j <= n <= |times|
    ensures Granted(c, b, times, 0, j) == Granted(c, b, times[..n], 0, j)
    decreases j
  {
    if j > 0 {
      GrantedOfPrefix(c, b, times, n, j - 1);
      assert times[..n][..j - 1] == times[..j - 1];
    }
  }

  predicate BelowTheCap(c: Config, b: Bucket, now: Time) {
    b.tokens + Income(c, now - b.lastRefill) <= c.capacity
  }

  /** A pass whose refill does not meet the cap loses nothing. */
  lemma PassKeepsAll(c: Config, b: Bucket, now: Time)
    requires BelowTheCap(c, b, now)
    ensures Pass(c, b, now).tokens + (if Grants(c, b, now) then 1.0 else 0.0)
      == b.tokens + Income(c, now - b.lastRefill)
    ensures Pass(c, b, now).lastRefill == now
  {
  }

  /** What was held at the start and came in since is held or was granted. */
  predicate Balanced(c: Config, start: Bucket, end: Bucket, granted: nat) {
    end.tokens + granted as real == start.tokens + Income(c, end.lastRefill - start.lastRefill)
  }

  lemma PassKeepsBalance(c: Config, start: Bucket, b: Bucket, granted: nat, now: Time)
    requires Balanced(c, start, b, granted) && BelowTheCap(c, b, now)
    ensures Balanced(c, start, Pass(c, b, now), granted + if Grants(c, b, now) then 1 else 0)
  {
    PassKeepsAll(c, b, now);
    IncomeAdds(c, start.lastRefill, b.lastRefill, now);
  }

  lemma StartsBalanced(c: Config, start: Bucket)
    ensures Balanced(c, start, start, 0)
  {
    assert Income(c, 0) == 0.0;
  }

  /** No pass from i to j - 1 meets the cap. */
  ghost predicate NeverFull(c: Config, b: Bucket, times: seq<Time>, i: nat, j: nat)
    requires i <= j <= |times|
  {
    forall k {:trigger BelowTheCap(c, After(c, b, times[..k]), times[k])} | i <= k < j ::
      BelowTheCap(c, After(c, b, times[..k]), times[k])
  }

  /** And nothing is lost: as long as no refill meets the cap, tokens held plus tokens granted are exactly
      what was held plus what time brought in. */
  lemma {:induction false} NothingIsLost(c: Config, b: Bucket, times: seq<Time>, i: nat, j: nat)
    requires i <= j <= |times| && NeverFull(c, b, times, i, j)
    ensures Balanced(c, After(c, b, times[..i]), After(c, b, times[..j]), Granted(c, b, times, i, j))
    decreases j - i
  {
    var start := After(c, b, times[..i]);
    if i < j {
      NothingIsLost(c, b, times, i, j - 1);
      assert times[..j][..j - 1] == times[..j - 1];
      var mid := After(c, b, times[..j - 1]);
      assert BelowTheCap(c, mid, times[j - 1]);
      PassKeepsBalance(c, start, mid, Granted(c, b, times, i, j - 1), times[j - 1]);
    } else {
      StartsBalanced(c, start);
    }
  }

  /** Tokens held plus tokens granted never exceed what was held plus what time brought in. */
  lemma {:induction false} NothingFromNothing(c: Config, b: Bucket, times: seq<Time>, i: nat, j: nat)
    requires i <= j <= |times|
    ensures var start, end := After(c, b, times[..i]), After(c, b, times[..j]);
      end.tokens + Granted(c, b, times, i, j) as real <= start.tokens + Income(c, end.lastRefill - start.lastRefill)
    decreases j - i
  {
    if i < j {
      NothingFromNothing(c, b, times, i, j - 1);
      assert times[..j][..j - 1] == times[..j - 1];
      var start, mid := After(c, b, times[..i]), After(c, b, times[..j - 1]);
      PassBalance(c, mid, times[j - 1]);
      IncomeAdds(c, start.lastRefill, mid.lastRefill, times[j - 1]);
    }
  }

  /** The bound: passes i to j - 1 fall in a window of `span` milliseconds, and they grant at
      most capacity + rate x span tokens. */
  lemma BucketBound(c: Config, b: Bucket, times: seq<Time>, i: nat, j: nat, span: Time)
    requires c.Valid() && 0.0 <= b.tokens <= c.capacity && Ordered(b, times) && i < j <= |times|
    requires times[j - 1] - times[i] <= span
    ensures Granted(c, b, times, i, j) as real <= c.capacity + Income(c, span)
  {
    NothingFromNothing(c, b, times, i + 1, j);
    GrantedSplits(c, b, times, i, j);
    FirstPassLeavesRoom(c, b, times, i);
    PrefixInRange(c, b, times, i + 1);
    PrefixInRange(c, b, times, j);
    IncomeGrows(c, times[j - 1] - times[i], span);
  }

  lemma PrefixInRange(c: Config, b: Bucket, times: seq<Time>, n: nat)
    requires c.Valid() && 0.0 <= b.tokens <= c.capacity && Ordered(b, times) && 0 < n <= |times|
    ensures After(c, b, times[..n]).tokens >= 0.0 && After(c, b, times[..n]).lastRefill == times[n - 1]
  {
    LevelInRange(c, b, times[..n]);
  }

  /** A pass that grants leaves at most capacity - 1 behind. */
  lemma FirstPassLeavesRoom(c: Config, b: Bucket, times: seq<Time>, i: nat)
    requires i < |times|
    ensures After(c, b, times[..i + 1]).tokens
      + (if Grants(c, After(c, b, times[..i]), times[i]) then 1.0 else 0.0) <= c.capacity
  {
    assert times[..i + 1][..i] == times[..i];
  }

  lemma {:induction false} GrantedSplits(c: Config, b: Bucket, times: seq<Time>, i: nat, j: nat)
    requires i < j <= |times|
    ensures Granted(c, b, times, i, j)
      == (if Grants(c, After(c, b, times[..i]), times[i]) then 1 else 0) + Granted(c, b, times, i + 1, j)
    decreases j - i
  {
    if i + 1 < j {
      GrantedSplits(c, b, times, i, j - 1);
    }
  }

  // ----- how long a caller can wait while others take

  predicate Fails(c: Config, b: Bucket, times: seq<Time>, i: nat)
    requires i < |times|
  {
    !Grants(c, After(c, b, times[..i]), times[i])
  }

  lemma RefillTwice(c: Config, b: Bucket, x: Time, y: Time)
    requires c.Valid() && b.tokens <= c.capacity && b.lastRefill <= x <= y
    ensures Refilled(c, Refilled(c, b, x), y) == Refilled(c, b, y)
  {
    IncomeAdds(c, b.lastRefill, x, y);
    IncomeGrows(c, 0, x - b.lastRefill);
    IncomeGrows(c, 0, y - x);
    assert Income(c, 0) == 0.0;
  }

  /** Passes that grant nothing only refill. */
  lemma {:induction false} BarrenPassesRefill(c: Config, b: Bucket, times: seq<Time>, i: nat, j: nat, t: Time)
    requires c.Valid() && 0.0 <= b.tokens <= c.capacity && Ordered(b, times) && i < j <= |times|
    requires Granted(c, b, times, i + 1, j) == 0 && times[j - 1] <= t
    ensures Refilled(c, After(c, b, times[..j]), t) == Refilled(c, After(c, b, times[..i + 1]), t)
    decreases j
  {
    if i + 1 < j {
      assert times[..j][..j - 1] == times[..j - 1];
      BarrenPassesRefill(c, b, times, i, j - 1, times[j - 1]);
      BarrenPassesRefill(c, b, times, i, j - 1, t);
      var before := After(c, b, times[..j - 1]);
      LevelInRange(c, b, times[..j - 1]);
      assert !Grants(c, before, times[j - 1]) && After(c, b, times[..j]) == Refilled(c, before, times[j - 1]);
      RefillTwice(c, before, times[j - 1], t);
    }
  }

  /** A caller that failed at pass i slept as computed, or longer, before pass j. */
  predicate SleptBetween(c: Config, b: Bucket, times: seq<Time>, i: nat, j: nat, late: nat)
    requires c.Valid() && i < j < |times|
  {
    var wait := WaitMs(c, After(c, b, times[..i + 1]).tokens);
    times[i] + wait <= times[j] <= times[i] + wait + late
  }

  /** It fails again only if somebody else was granted a token meanwhile. */
  lemma FailsAgainOnlyIfTaken(c: Config, b: Bucket, times: seq<Time>, i: nat, j: nat, late: nat)
    requires c.Valid() && c.capacity >= 1.0 && 0.0 <= b.tokens <= c.capacity && Ordered(b, times)
    requires i < j < |times| && SleptBetween(c, b, times, i, j, late)
    requires Fails(c, b, times, i) && Fails(c, b, times, j)
    ensures Granted(c, b, times, i + 1, j) >= 1
  {
    if Granted(c, b, times, i + 1, j) == 0 {
      var level := After(c, b, times[..i + 1]);
      assert times[..i + 1][..i] == times[..i];
      LevelInRange(c, b, times[..i + 1]);
      LevelInRange(c, b, times[..i]);
      BarrenPassesRefill(c, b, times, i, j, times[j]);
      SleepIsEnough(c, level, times[j] - times[i] - WaitMs(c, level.tokens));
      assert false;
    }
  }

  function MaxWait(c: Config): int
    requires c.Valid()
  {
    Ceil(1000.0 / c.ratePerSecond)
  }

  lemma CeilGrows(x: real, y: real)
    requires x <= y
    ensures Ceil(x) <= Ceil(y)
  {
  }

  lemma WaitAtMost(c: Config, tokens: real)
    requires c.Valid() && 0.0 <= tokens
    ensures WaitMs(c, tokens) <= MaxWait(c)
  {
    var k := 1000.0 / c.ratePerSecond;
    assert k > 0.0;
    assert (1.0 - tokens) / c.ratePerSecond * 1000.0 == (1.0 - tokens) * k;
    ScaleUp(1.0 - tokens, 1.0, k);
    CeilGrows((1.0 - tokens) * k, k);
  }

  /** The passes of one caller among all passes: it sleeps from each to the next. */
  ghost predicate PassesOf(c: Config, b: Bucket, times: seq<Time>, own: seq<nat>, late: nat)
    requires c.Valid()
  {
    && own != [] && (forall k | 0 <= k < |own| :: own[k] < |times|)
    && (forall i, k | 0 <= i <= k < |own| :: own[i] <= own[k])
    && forall k | 0 <= k < |own| - 1 ::
         own[k] < own[k + 1] && Fails(c, b, times, own[k]) && SleptBetween(c, b, times, own[k], own[k + 1], late)
  }

  lemma {:induction false} GrantedAdds(c: Config, b: Bucket, times: seq<Time>, i: nat, j: nat, k: nat)
    requires i <= j <= k <= |times|
    ensures Granted(c, b, times, i, k) == Granted(c, b, times, i, j) + Granted(c, b, times, j, k)
    decreases k
  {
    if j < k {
      GrantedAdds(c, b, times, i, j, k - 1);
    }
  }

  lemma FrontPasses(c: Config, b: Bucket, times: seq<Time>, own: seq<nat>, late: nat)
    requires c.Valid() && PassesOf(c, b, times, own, late) && |own| > 1
    ensures PassesOf(c, b, times, own[..|own| - 1], late)
  {
  }

  /** Every pass that fails but the first has cost somebody else's token. */
  lemma {:induction false} FailuresCostTokens(c: Config, b: Bucket, times: seq<Time>, own: seq<nat>, late: nat)
    requires c.Valid() && c.capacity >= 1.0 && 0.0 <= b.tokens <= c.capacity && Ordered(b, times)
    requires PassesOf(c, b, times, own, late)
    ensures Granted(c, b, times, own[0], own[|own| - 1])
      >= if Fails(c, b, times, own[|own| - 1]) then |own| - 1 else |own| - 2
  {
    var n := |own| - 1;
    if n > 0 {
      var (i, j) := (own[n - 1], own[n]);
      FrontPasses(c, b, times, own, late);
      FailuresCostTokens(c, b, times, own[..n], late);
      GrantedAdds(c, b, times, own[0], i, j);
      GrantedSplits(c, b, times, i, j);
      if Fails(c, b, times, j) {
        FailsAgainOnlyIfTaken(c, b, times, i, j, late);
      }
    }
  }

  lemma {:induction false} SleepsAddUp(c: Config, b: Bucket, times: seq<Time>, own: seq<nat>, late: nat)
    requires c.Valid() && 0.0 <= b.tokens <= c.capacity && Ordered(b, times) && PassesOf(c, b, times, own, late)
    ensures times[own[|own| - 1]] - times[own[0]] <= (|own| - 1) * (MaxWait(c) + late)
  {
    var n := |own| - 1;
    if n > 0 {
      FrontPasses(c, b, times, own, late);
      SleepsAddUp(c, b, times, own[..n], late);
      LevelInRange(c, b, times[..own[n - 1] + 1]);
      WaitAtMost(c, After(c, b, times[..own[n - 1] + 1]).tokens);
      Distribute(n - 1, MaxWait(c) + late);
    }
  }

  /** The wait under contention: a caller, while whose passes the others are granted at most n tokens
      and whose sleeps end at most `late` after they should, fails at most n + 1 times and has its token
      within (n + 1) (ceil(1000 / rate) + late) milliseconds. A refresh whose lease leaves that and the
      request's own timeout is over before the lease is. */
  lemma WaitBound(c: Config, b: Bucket, times: seq<Time>, own: seq<nat>, late: nat, n: nat, timeout: Time, lease: Time)
    requires c.Valid() && c.capacity >= 1.0 && 0.0 <= b.tokens <= c.capacity && Ordered(b, times)
    requires PassesOf(c, b, times, own, late) && Granted(c, b, times, own[0], own[|own| - 1]) <= n
    ensures |own| <= n + 2 && (|own| == n + 2 ==> !Fails(c, b, times, own[|own| - 1]))
    ensures times[own[|own| - 1]] - times[own[0]] <= (n + 1) * (MaxWait(c) + late)
    ensures (n + 1) * (MaxWait(c) + late) + timeout <= lease
      ==> times[own[|own| - 1]] + timeout <= times[own[0]] + lease
  {
    FailuresCostTokens(c, b, times, own, late);
    SleepsAddUp(c, b, times, own, late);
    WaitAtMost(c, 1.0);
    Common.ScaleUp(|own| - 1, n + 1, MaxWait(c) + late);
  }
}
