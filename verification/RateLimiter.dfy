/**
 * The per-sender token bucket. Units are exact: one token is 2000 units and one unit flows in per
 * millisecond (30 tokens a minute), up to 10 tokens.
 */
module RateLimiting {
  import opened Common
  import opened MessageLog

  const TOKEN: nat := 2000
  const BURST: nat := 10 * TOKEN

  datatype Bucket = Bucket(units: int, refilledAt: int)

  /** A sender seen for the first time starts full; later ones are topped up for the time gone by. */
  function Refill(b: Option<Bucket>, now: int): int {
    if b.None? then BURST else Min(BURST, b.value.units + (now - b.value.refilledAt))
  }

  predicate Passes(b: Option<Bucket>, now: int) { Refill(b, now) >= TOKEN }

  function Spend(b: Option<Bucket>, now: int): Bucket {
    Bucket(Refill(b, now) - (if Passes(b, now) then TOKEN else 0), now)
  }

  class RateLimiter {
    var buckets: map<SteamId, Bucket>

    constructor ()
      ensures buckets == map[]
    {
      buckets := map[];
    }

    function BucketOf(sender: SteamId): Option<Bucket>
      reads this
    {
      if sender in buckets then Some(buckets[sender]) else None
    }

    method TakeToken(sender: SteamId, now: int) returns (ok: bool)
      modifies this
      ensures ok <==> Passes(old(BucketOf(sender)), now)
      ensures buckets == old(buckets)[sender := Spend(old(BucketOf(sender)), now)]
    {
      var isNew := sender !in buckets;
      if isNew {
        buckets := buckets[sender := Bucket(BURST, now)];
      }
      var tokens := buckets[sender].units;
      if !isNew {
        tokens := Min(BURST, tokens + (now - buckets[sender].refilledAt));
      }
      if tokens < TOKEN {
        buckets := buckets[sender := Bucket(tokens, now)];
        return false;
      }
      buckets := buckets[sender := Bucket(tokens - TOKEN, now)];
      return true;
    }
  }

  // ---------------------------------------------------------------- whole runs of one sender

  /**
   * One sender's bucket after the requests stamped `times`, in the order the mutex let them through.
   * The stamp is read before the mutex is taken, so the times need not be sorted.
   */
  function After(b: Option<Bucket>, times: seq<int>): Option<Bucket> {
    if times == [] then b
    else
      var k := |times| - 1;
      Some(Spend(After(b, times[..k]), times[k]))
  }

  /** How many of those requests passed with a stamp in the closed window [from, from + length]. */
  function PassedWithin(b: Option<Bucket>, times: seq<int>, from: int, length: nat): nat {
    if times == [] then 0
    else
      var k := |times| - 1;
      PassedWithin(b, times[..k], from, length) +
      (if Passes(After(b, times[..k]), times[k]) && from <= times[k] <= from + length then 1 else 0)
  }

  predicate AllPass(b: Option<Bucket>, times: seq<int>) {
    if times == [] then true
    else
      var k := |times| - 1;
      AllPass(b, times[..k]) && Passes(After(b, times[..k]), times[k])
  }

  lemma {:induction false} WindowPotential(b: Option<Bucket>, times: seq<int>, from: int, length: nat)
    ensures var n := PassedWithin(b, times, from, length);
            var a := After(b, times);
            && 2000 * n <= BURST + length
            && (n > 0 ==> a.Some? && a.value.units - a.value.refilledAt <= BURST - from - 2000 * n)
  {
    if times != [] {
      WindowPotential(b, times[..|times| - 1], from, length);
    }
  }

  /**
   * The rate bound: whatever happened before, and in whatever order the stamps reach the bucket, at
   * most 10 + length/2000 sends stamped within any `length` milliseconds pass.
   */
  lemma RateBound(b: Option<Bucket>, times: seq<int>, from: int, length: nat)
    ensures PassedWithin(b, times, from, length) <= 10 + length / 2000
  {
    WindowPotential(b, times, from, length);
  }

  /** Requests at least one token's worth of time apart, starting from `since`. */
  predicate Spaced(times: seq<int>, since: int) {
    if times == [] then true
    else
      var k := |times| - 1;
      Spaced(times[..k], since) && times[k] - (if k == 0 then since else times[k - 1]) >= TOKEN
  }

  /**
   * A sender who waits two seconds before every send is never refused: not right after a burst, and not a
   * sender seen for the first time.
   */
  lemma {:induction false} SpacedSendsPass(b: Option<Bucket>, times: seq<int>, since: int)
    requires Spaced(times, since) && (b.Some? ==> b.value.units >= 0 && b.value.refilledAt == since)
    ensures AllPass(b, times)
    ensures var a := After(b, times);
            && (times == [] ==> a == b)
            && (times != [] ==> a.Some? && a.value.units >= 0 && a.value.refilledAt == times[|times| - 1])
  {
    if times != [] {
      var k := |times| - 1;
      SpacedSendsPass(b, times[..k], since);
    }
  }

  /** One more request at the end. */
  lemma OneMore(b: Option<Bucket>, times: seq<int>, t: int, from: int, length: nat)
    ensures After(b, times + [t]) == Some(Spend(After(b, times), t))
    ensures PassedWithin(b, times + [t], from, length) ==
            PassedWithin(b, times, from, length) + (if Passes(After(b, times), t) && from <= t <= from + length then 1 else 0)
  {
    assert (times + [t])[..|times|] == times;
  }

  function Repeat(n: nat, t: int): (times: seq<int>) {
    if n == 0 then [] else Repeat(n - 1, t) + [t]
  }

  /** Ten at once, then one every two seconds. */
  function BurstThenSteady(k: nat, t: int): (times: seq<int>) {
    if k == 0 then Repeat(10, t) else BurstThenSteady(k - 1, t) + [t + 2000 * k]
  }

  lemma {:induction false} BurstSpends(n: nat, t: int)
    requires n <= 10
    ensures After(None, Repeat(n, t)) == (if n == 0 then None else Some(Bucket(BURST - 2000 * n, t)))
  {
    if n > 0 {
      BurstSpends(n - 1, t);
      OneMore(None, Repeat(n - 1, t), t, t, 0);
    }
  }

  lemma {:induction false} BurstPasses(n: nat, t: int, length: nat)
    requires n <= 10
    ensures PassedWithin(None, Repeat(n, t), t, length) == n
  {
    if n > 0 {
      BurstPasses(n - 1, t, length);
      BurstSpends(n - 1, t);
      OneMore(None, Repeat(n - 1, t), t, t, length);
    }
  }

  lemma {:induction false} SteadyPasses(k: nat, t: int, length: nat)
    requires 2000 * k <= length
    ensures After(None, BurstThenSteady(k, t)) == Some(Bucket(0, t + 2000 * k))
    ensures PassedWithin(None, BurstThenSteady(k, t), t, length) == 10 + k
  {
    if k == 0 {
      BurstSpends(10, t);
      BurstPasses(10, t, length);
    } else {
      SteadyPasses(k - 1, t, length);
      assert Refill(After(None, BurstThenSteady(k - 1, t)), t + 2000 * k) == TOKEN;
      OneMore(None, BurstThenSteady(k - 1, t), t + 2000 * k, t, length);
    }
  }

  /** The bound is sharp: for every length some run of a fresh sender reaches it. */
  lemma RateBoundIsReached(t: int, length: nat)
    ensures PassedWithin(None, BurstThenSteady(length / 2000, t), t, length) == 10 + length / 2000
  {
    SteadyPasses(length / 2000, t, length);
  }

  // ---------------------------------------------------------------- the lazy refill is an eager one

  /** A bucket that a timer tops up by one unit every millisecond. */
  function Ticked(units: int, ms: nat): int {
    if ms == 0 then units else Min(BURST, Ticked(units, ms - 1) + 1)
  }

  function EagerAfter(b: Bucket, times: seq<int>): Bucket
    requires Sorted(times, b.refilledAt)
    ensures EagerAfter(b, times).refilledAt == (if times == [] then b.refilledAt else times[|times| - 1])
  {
    if times == [] then b
    else
      var k := |times| - 1;
      var e := EagerAfter(b, times[..k]);
      var units := Ticked(e.units, times[k] - e.refilledAt);
      Bucket(if units >= TOKEN then units - TOKEN else units, times[k])
  }

  predicate Sorted(times: seq<int>, since: int) {
    && (forall i | 0 <= i < |times| :: since <= times[i])
    && (forall i, j | 0 <= i < j < |times| :: times[i] <= times[j])
  }

  lemma {:induction false} TickedIsRefill(units: int, ms: nat)
    requires units <= BURST
    ensures Ticked(units, ms) == Min(BURST, units + ms)
  {
    if ms > 0 { TickedIsRefill(units, ms - 1); }
  }

  /** Under a clock that does not go back, refilling on demand decides every send as the timer would. */
  lemma {:induction false} LazyEqualsEager(b: Bucket, times: seq<int>)
    requires b.units <= BURST && Sorted(times, b.refilledAt)
    ensures After(Some(b), times) == Some(EagerAfter(b, times)) && EagerAfter(b, times).units <= BURST
  {
    if times != [] {
      var k := |times| - 1;
      LazyEqualsEager(b, times[..k]);
      var e := EagerAfter(b, times[..k]);
      TickedIsRefill(e.units, times[k] - e.refilledAt);
    }
  }
}
