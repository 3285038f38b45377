/** Lazy expiry of cached decisions: an entry's age is the 64-bit difference of two timer readings,
    divided by the timer frequency, compared with the entry's time to live in seconds. */
module Expiry {
  import opened Bytes

  /** Time to live used when the policy gives none: seven days. */
  const DEFAULT_TTL: int := 7 * 24 * 60 * 60

  /** Unsigned subtraction wraps modulo 2^64. */
  function AgeSeconds(now: U64, timestamp: U64, hz: U64): (age: nat)
    requires hz > 0
  {
    ((now - timestamp) % TWO64) / hz
  }

  predicate Expired(now: U64, timestamp: U64, ttl: U32, hz: U64)
    requires hz > 0
  {
    AgeSeconds(now, timestamp, hz) >= ttl
  }

  /** The packet loop replaces a time to live that is not positive by the default. */
  function EffectiveTtl(ttl: I32): (r: I32)
    ensures r > 0
  {
    if ttl <= 0 then DEFAULT_TTL else ttl
  }

  lemma QuotientAtLeast(x: nat, d: nat, t: nat)
    requires d > 0
    ensures x / d >= t <==> x >= t * d
  {
    var q, r := x / d, x % d;
    assert x == q * d + r;
    if q >= t {
      assert q * d >= t * d;
    } else {
      assert (q + 1) * d <= t * d;
    }
  }

  /** The exact expiry condition, with and without wrap-around of the timer difference. */
  lemma ExpiryExact(now: U64, timestamp: U64, ttl: U32, hz: U64)
    requires hz > 0
    ensures now >= timestamp ==> (Expired(now, timestamp, ttl, hz) <==> now - timestamp >= ttl * hz)
    ensures now < timestamp ==> (Expired(now, timestamp, ttl, hz) <==> TWO64 - (timestamp - now) >= ttl * hz)
  {
    QuotientAtLeast((now - timestamp) % TWO64, hz, ttl);
  }

  /** An entry stamped before the timer restarted never hits, whatever time to live the policy asked for. */
  lemma RestartedTimerExpires(now: U64, timestamp: U64, ttl: I32, hz: U64)
    requires now < timestamp < TWO63
    requires 0 < hz < TWO32
    ensures Expired(now, timestamp, EffectiveTtl(ttl), hz)
  {
    var t := EffectiveTtl(ttl);
    assert t * hz <= (0x8000_0000 - 1) * hz;
    ExpiryExact(now, timestamp, t, hz);
  }

  /** The bound on the timestamp matters: close to 2^64 the difference wraps to a small age and the entry hits. */
  lemma LateTimestampMayHit()
    ensures !Expired(0, TWO64 - 1, EffectiveTtl(1), 2)
  {
    ExpiryExact(0, TWO64 - 1, EffectiveTtl(1), 2);
  }
}
