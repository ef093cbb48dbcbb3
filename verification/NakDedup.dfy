/**
  Suppression of repeated NAK packets (src/utils/nak_dedup.cpp): a 64-bit
  multiplicative hash of the loss list and, for each group, a cache of the
  hashes seen.
 */
module NakDedup {
  const SUPPRESS_MS := 100
  const MAX_REPEATS := 1

  // ---- the hash ------------------------------------------------------------

  /** Multiplication by FNV_PRIME modulo 2^64. */
  function TimesPrime(x: bv64): bv64 {
    x * 1099511628211
  }

  /** Multiplication by the inverse of FNV_PRIME modulo 2^64. */
  function OverPrime(x: bv64): bv64 {
    x * 14886173955864302971
  }

  /** One round: xor the byte in, then multiply. */
  function Mix(h: bv64, b: bv8): bv64 {
    TimesPrime(h ^ (b as bv64))
  }

  function MixAll(h: bv64, bytes: seq<bv8>): bv64
    decreases |bytes|
  {
    if bytes == [] then h else MixAll(Mix(h, bytes[0]), bytes[1..])
  }

  /** The bytes that are hashed: the loss list after the 16-byte header, cut to
      `prefix` bytes when `prefix` is not negative. */
  function HashedPart(packet: seq<bv8>, prefix: int): seq<bv8> {
    if |packet| <= 16 then []
    else if 0 <= prefix < |packet| - 16 then packet[16..16 + prefix]
    else packet[16..]
  }

  function HashNak(packet: seq<bv8>, prefix: int): bv64 {
    if |packet| <= 16 then 0 else MixAll(1469598103934665603, HashedPart(packet, prefix))
  }

  lemma MixAllSnoc(h: bv64, bytes: seq<bv8>, b: bv8)
    ensures MixAll(h, bytes + [b]) == Mix(MixAll(h, bytes), b)
    decreases |bytes|
  {
    if bytes == [] {
      assert MixAll(h, [b]) == MixAll(Mix(h, b), []);
    } else {
      assert (bytes + [b])[1..] == bytes[1..] + [b];
      MixAllSnoc(Mix(h, bytes[0]), bytes[1..], b);
    }
  }

  method ComputeHash(packet: seq<bv8>, prefix: int) returns (hash: bv64)
    ensures hash == HashNak(packet, prefix)
  {
    if |packet| <= 16 {
      return 0;
    }
    var payload := packet[16..];
    var length := |packet| - 16;
    if 0 <= prefix < length {
      length := prefix;
    }
    assert payload[..length] == HashedPart(packet, prefix);
    hash := 1469598103934665603;
    for i := 0 to length
      invariant hash == MixAll(1469598103934665603, payload[..i])
    {
      assert payload[..i + 1] == payload[..i] + [payload[i]];
      MixAllSnoc(1469598103934665603, payload[..i], payload[i]);
      hash := Mix(hash, payload[i]);
    }
  }

  /** The odd multiplier has an inverse modulo 2^64. */
  lemma PrimeInvertible(x: bv64)
    ensures OverPrime(TimesPrime(x)) == x
  {
    assert OverPrime(x * 1099511628211) == x;
  }

  lemma TimesPrimeInjective(x: bv64, y: bv64)
    requires TimesPrime(x) == TimesPrime(y)
    ensures x == y
  {
    PrimeInvertible(x);
    PrimeInvertible(y);
  }

  lemma MixInjective(h1: bv64, h2: bv64, b1: bv8, b2: bv8)
    requires Mix(h1, b1) == Mix(h2, b2)
    ensures h1 ^ (b1 as bv64) == h2 ^ (b2 as bv64)
  {
    TimesPrimeInjective(h1 ^ (b1 as bv64), h2 ^ (b2 as bv64));
  }

  lemma XorCancels(h1: bv64, h2: bv64, b: bv8)
    requires h1 ^ (b as bv64) == h2 ^ (b as bv64)
    ensures h1 == h2
  {
  }

  lemma XorSeparates(h: bv64, b1: bv8, b2: bv8)
    requires h ^ (b1 as bv64) == h ^ (b2 as bv64)
    ensures b1 == b2
  {
  }

  lemma FirstByteDecided(h: bv64, b1: bv8, b2: bv8)
    requires Mix(h, b1) == Mix(h, b2)
    ensures b1 == b2
  {
    MixInjective(h, h, b1, b2);
    XorSeparates(h, b1, b2);
  }

  lemma {:induction false} MixAllInjective(h1: bv64, h2: bv64, bytes: seq<bv8>)
    requires MixAll(h1, bytes) == MixAll(h2, bytes)
    ensures h1 == h2
    decreases |bytes|
  {
    if bytes != [] {
      MixAllInjective(Mix(h1, bytes[0]), Mix(h2, bytes[0]), bytes[1..]);
      MixInjective(h1, h2, bytes[0], bytes[0]);
      XorCancels(h1, h2, bytes[0]);
    }
  }

  lemma {:induction false} OneByteApart(h: bv64, p: seq<bv8>, q: seq<bv8>, i: nat)
    requires |p| == |q| && i < |p| && p[i] != q[i]
    requires forall j :: 0 <= j < |p| && j != i ==> p[j] == q[j]
    ensures MixAll(h, p) != MixAll(h, q)
    decreases i
  {
    if i == 0 {
      assert p[1..] == q[1..];
      if MixAll(h, p) == MixAll(h, q) {
        MixAllInjective(Mix(h, p[0]), Mix(h, q[0]), p[1..]);
        FirstByteDecided(h, p[0], q[0]);
      }
    } else {
      OneByteApart(Mix(h, p[0]), p[1..], q[1..], i - 1);
    }
  }

  /** Two NAKs whose hashed parts have the same length and differ in exactly one
      byte never share a hash, whatever the prefix limit. */
  lemma SingleByteChangesHash(p: seq<bv8>, q: seq<bv8>, prefix: int, i: nat)
    requires var a, b := HashedPart(p, prefix), HashedPart(q, prefix);
             && |a| == |b| && i < |a| && a[i] != b[i]
             && forall j :: 0 <= j < |a| && j != i ==> a[j] == b[j]
    ensures HashNak(p, prefix) != HashNak(q, prefix)
  {
    OneByteApart(1469598103934665603, HashedPart(p, prefix), HashedPart(q, prefix), i);
  }

  // ---- the cache -----------------------------------------------------------

  datatype Entry = Entry(timestamp: nat, repeats: nat)
  /** `H` is the hash type; nothing below depends on which. */
  type Cache<!H> = map<H, Entry>

  predicate Accepts<H(==)>(cache: Cache<H>, hash: H, now: nat) {
    hash in cache ==> now >= cache[hash].timestamp + SUPPRESS_MS && cache[hash].repeats < MAX_REPEATS
  }

  function AfterCall<H(==)>(cache: Cache<H>, hash: H, now: nat): Cache<H> {
    if !Accepts(cache, hash, now) then cache
    else cache[hash := Entry(now, if hash in cache then cache[hash].repeats + 1 else 0)]
  }

  /** The cache is passed by reference in the source; here it is returned. */
  method ShouldAcceptNak<H(==)>(cache: Cache<H>, hash: H, now: nat) returns (accept: bool, updated: Cache<H>)
    ensures accept == Accepts(cache, hash, now)
    ensures updated == AfterCall(cache, hash, now)
  {
    updated := cache;
    if hash !in cache {
      updated := cache[hash := Entry(now, 0)];
      return true, updated;
    }
    var entry := cache[hash];
    if now < entry.timestamp {
      return false, updated;
    }
    if now - entry.timestamp < SUPPRESS_MS {
      return false, updated;
    }
    if entry.repeats >= MAX_REPEATS {
      return false, updated;
    }
    updated := cache[hash := Entry(now, entry.repeats + 1)];
    return true, updated;
  }

  // ---- every run of calls on one cache -------------------------------------

  datatype Call<H> = Call(hash: H, now: nat)

  /** Clock readings of the accepted calls with this hash, in call order. */
  function AcceptedTimes<H(==)>(cache: Cache<H>, calls: seq<Call<H>>, hash: H): seq<nat>
    decreases |calls|
  {
    if calls == [] then []
    else
      var c := calls[0];
      (if c.hash == hash && Accepts(cache, c.hash, c.now) then [c.now] else [])
      + AcceptedTimes(AfterCall(cache, c.hash, c.now), calls[1..], hash)
  }

  function TimesOf<H(==)>(calls: seq<Call<H>>, hash: H): seq<nat> {
    if calls == [] then []
    else (if calls[0].hash == hash then [calls[0].now] else []) + TimesOf(calls[1..], hash)
  }

  function FirstNotBefore(times: seq<nat>, t: nat): seq<nat> {
    if times == [] then []
    else if times[0] >= t then [times[0]] else FirstNotBefore(times[1..], t)
  }

  lemma FirstNotBeforeBound(times: seq<nat>, t: nat)
    ensures |FirstNotBefore(times, t)| <= 1
    ensures |FirstNotBefore(times, t)| == 1 ==> FirstNotBefore(times, t)[0] >= t
  {
  }

  /** The intended policy for one hash: its first call, and then the first later
      call that reads a clock at least SUPPRESS_MS after it. */
  function Policy(times: seq<nat>): (r: seq<nat>)
    ensures |r| <= 2
    ensures |r| == 2 ==> r[1] >= r[0] + SUPPRESS_MS
  {
    if times == [] then [] else
      FirstNotBeforeBound(times[1..], times[0] + SUPPRESS_MS);
      [times[0]] + FirstNotBefore(times[1..], times[0] + SUPPRESS_MS)
  }

  lemma {:induction false} AcceptedFrom<H>(cache: Cache<H>, calls: seq<Call<H>>, hash: H)
    ensures AcceptedTimes(cache, calls, hash)
            == if hash !in cache then Policy(TimesOf(calls, hash))
               else if cache[hash].repeats >= MAX_REPEATS then []
               else FirstNotBefore(TimesOf(calls, hash), cache[hash].timestamp + SUPPRESS_MS)
    decreases |calls|
  {
    if calls != [] {
      var c := calls[0];
      var rest := TimesOf(calls[1..], hash);
      AcceptedFrom(AfterCall(cache, c.hash, c.now), calls[1..], hash);
      if c.hash == hash {
        assert TimesOf(calls, hash)[1..] == rest;
      } else {
        assert TimesOf(calls, hash) == rest;
      }
    }
  }

  /** In any call sequence with any clock, the calls accepted for a hash are
      those of the policy: at most two, the second SUPPRESS_MS after the first,
      and no other hash has any influence. */
  lemma SuppressionExact<H>(calls: seq<Call<H>>, hash: H)
    ensures var times := AcceptedTimes(map[], calls, hash);
            && times == Policy(TimesOf(calls, hash))
            && |times| <= 2
            && (|times| == 2 ==> times[1] >= times[0] + SUPPRESS_MS)
            && (times == [] <==> TimesOf(calls, hash) == [])
  {
    AcceptedFrom(map[], calls, hash);
  }
}
