/**
 * Bounded maps of token buckets: they forget entries to stay within a capacity and a time to live,
 * and must still agree with one ideal, never-forgotten bucket per key. Times and delays are in
 * seconds.
 */
module TokenBuckets {
  import opened Common

  const NANOSECOND: real := 0.000000001

  datatype LimitData = LimitData(burst: nat, refill: real, capacity: nat, ttl: real)

  /** A bucket policy with the size and time to live of its map, as its constructors assert. */
  type Limits = l: LimitData | l.burst > 0 && l.refill > 0.0 && l.capacity > 0 && l.ttl > 0.0
    witness LimitData(1, 1.0, 1, 1.0)

  datatype Bucket = Bucket(tokens: real, lastRefill: real, lastSeen: real)

  datatype Verdict = Allowed | Limited(delay: real)

  // ---- one bucket ----

  /** `saturating_duration_since`. */
  function Since(now: real, then_: real): real { if now < then_ then 0.0 else now - then_ }

  function Burst(l: Limits): real { l.burst as real }

  /** What a bucket at `level` holds after `seconds` without a call. */
  function Refilled(l: Limits, level: real, seconds: real): real {
    var tokens := level + seconds / l.refill;
    if tokens < Burst(l) then tokens else Burst(l)
  }

  function TokensAt(l: Limits, b: Bucket, now: real): real {
    Refilled(l, b.tokens, Since(now, b.lastRefill))
  }

  function Full(l: Limits, now: real): Bucket { Bucket(Burst(l), now, now) }

  function Charge(l: Limits, b: Bucket, now: real): (Bucket, Verdict) {
    var tokens := TokensAt(l, b, now);
    if tokens < 1.0 then (Bucket(tokens, now, now), Limited((1.0 - tokens) * l.refill))
    else (Bucket(tokens - 1.0, now, now), Allowed)
  }

  // ---- one call on the map ----

  function Retained<K>(l: Limits, entries: map<K, Bucket>, now: real): map<K, Bucket> {
    map k | k in entries && Since(now, entries[k].lastSeen) < l.ttl :: entries[k]
  }

  predicate Evictable(l: Limits, b: Bucket, now: real) { TokensAt(l, b, now) >= Burst(l) }

  ghost predicate OldestEvictable<K(!new)>(l: Limits, entries: map<K, Bucket>, now: real, e: K) {
    && e in entries && Evictable(l, entries[e], now)
    && forall k :: k in entries && Evictable(l, entries[k], now) ==> entries[e].lastSeen <= entries[k].lastSeen
  }

  ghost predicate NoneEvictable<K(!new)>(l: Limits, entries: map<K, Bucket>, now: real) {
    forall k :: k in entries ==> !Evictable(l, entries[k], now)
  }

  function Wait(l: Limits, b: Bucket, now: real): real {
    var missing := Burst(l) - TokensAt(l, b, now);
    (if missing < 0.0 then 0.0 else missing) * l.refill
  }

  ghost predicate LeastWait<K(!new)>(l: Limits, entries: map<K, Bucket>, now: real, wait: real) {
    && (exists k :: k in entries && Wait(l, entries[k], now) == wait)
    && (forall k :: k in entries ==> wait <= Wait(l, entries[k], now))
  }

  function AtLeastTick(wait: real): real { if wait < NANOSECOND then NANOSECOND else wait }

  /** The map with room for one more key, or the delay after which there will be some. */
  ghost predicate MadeRoom<K(!new)>(l: Limits, entries: map<K, Bucket>, now: real, after: map<K, Bucket>,
                                    refused: Option<real>)
  {
    if |entries| < l.capacity then after == entries && refused.None?
    else if NoneEvictable(l, entries, now) then
      after == entries && refused.Some?
          && exists wait :: LeastWait(l, entries, now, wait) && refused.value == AtLeastTick(wait)
    else refused.None? && exists e :: OldestEvictable(l, entries, now, e) && after == entries - {e}
  }

  ghost predicate Charged<K>(l: Limits, entries: map<K, Bucket>, key: K, now: real, after: map<K, Bucket>, v: Verdict)
    requires key in entries
  {
    after == entries[key := Charge(l, entries[key], now).0] && v == Charge(l, entries[key], now).1
  }

  /** A call for an absent key: refused for want of room, or charged to a new full bucket. */
  ghost predicate Inserted<K>(l: Limits, roomy: map<K, Bucket>, refused: Option<real>, key: K, now: real,
                              after: map<K, Bucket>, v: Verdict)
  {
    match refused
    case Some(delay) => after == roomy && v == Limited(delay)
    case None => Charged(l, roomy[key := Full(l, now)], key, now, after, v)
  }

  /** One call of `check_at`; ties between equally old evictable entries may go either way. */
  ghost predicate Step<K(!new)>(l: Limits, before: map<K, Bucket>, key: K, now: real, after: map<K, Bucket>, v: Verdict)
  {
    var kept := Retained(l, before, now);
    if key in kept then Charged(l, kept, key, now, after, v)
    else exists roomy, refused ::
           MadeRoom(l, kept, now, roomy, refused) && Inserted(l, roomy, refused, key, now, after, v)
  }

  class BoundedBuckets<K(==, !new)> {
    const limits: Limits
    var entries: map<K, Bucket>

    constructor (limits: Limits)
      ensures this.limits == limits && entries == map[]
    {
      this.limits := limits;
      entries := map[];
    }

    /** The evictable entry not seen for the longest time. */
    method FindEvictable(now: real) returns (e: Option<K>)
      ensures e.Some? ==> OldestEvictable(limits, entries, now, e.value)
      ensures e.None? ==> NoneEvictable(limits, entries, now)
    {
      e := None;
      var left := entries.Keys;
      while left != {}
        invariant left <= entries.Keys
        invariant e.Some? ==> e.value in entries && Evictable(limits, entries[e.value], now)
        invariant forall k :: k in entries && k !in left && Evictable(limits, entries[k], now) ==>
          e.Some? && entries[e.value].lastSeen <= entries[k].lastSeen
        decreases |left|
      {
        var k :| k in left;
        left := left - {k};
        if Evictable(limits, entries[k], now) && (e.None? || entries[k].lastSeen < entries[e.value].lastSeen) {
          e := Some(k);
        }
      }
    }

    /** The shortest time until some entry is full again. */
    method ShortestWait(now: real) returns (wait: real)
      requires entries != map[]
      ensures LeastWait(limits, entries, now, wait)
    {
      var least: Option<real> := None;
      var left := entries.Keys;
      assert exists k :: k in left;
      while left != {}
        invariant left <= entries.Keys
        invariant least.None? ==> left == entries.Keys
        invariant least.Some? ==> exists k :: k in entries && Wait(limits, entries[k], now) == least.value
        invariant forall k :: k in entries && k !in left ==> least.Some? && least.value <= Wait(limits, entries[k], now)
        decreases |left|
      {
        var k :| k in left;
        left := left - {k};
        var own := Wait(limits, entries[k], now);
        if least.None? || own < least.value {
          least := Some(own);
        }
      }
      return if least.Some? then least.value else limits.ttl;
    }

    method MakeRoom(now: real) returns (refused: Option<real>)
      modifies this`entries
      ensures MadeRoom(limits, old(entries), now, entries, refused)
    {
      if |entries| < limits.capacity { return None; }
      var e := FindEvictable(now);
      if e.Some? {
        entries := entries - {e.value};
        return None;
      }
      var wait := ShortestWait(now);
      return Some(AtLeastTick(wait));
    }

    method CheckAt(key: K, now: real) returns (v: Verdict)
      modifies this`entries
      ensures Step(limits, old(entries), key, now, entries, v)
    {
      entries := map k | k in entries && Since(now, entries[k].lastSeen) < limits.ttl :: entries[k];
      if key !in entries {
        var refused := MakeRoom(now);
        if refused.Some? { return Limited(refused.value); }
        entries := entries[key := Full(limits, now)];
      }
      var (bucket, verdict) := Charge(limits, entries[key], now);
      entries := entries[key := bucket];
      return verdict;
    }
  }
}
