/**
 * What a bounded map of token buckets promises its callers: it behaves as one ideal bucket per key
 * that is never forgotten, except that it may turn a new key away while every entry is in use.
 */
module RateLimits {
  import opened Common
  import opened TokenBuckets

  /** An entry is full again before it is old enough to be forgotten. */
  predicate ForgetsOnlyFull(l: Limits) { l.ttl >= Burst(l) * l.refill }

  /** The tokens a key could spend: an absent key would start full. */
  function Level<K>(l: Limits, entries: map<K, Bucket>, k: K, t: real): real {
    if k in entries then TokensAt(l, entries[k], t) else Burst(l)
  }

  predicate BucketFits(l: Limits, b: Bucket) { 0.0 <= b.tokens <= Burst(l) && b.lastRefill == b.lastSeen }

  ghost predicate WellKept<K(!new)>(l: Limits, entries: map<K, Bucket>) {
    |entries| <= l.capacity && forall k :: k in entries ==> BucketFits(l, entries[k])
  }

  /** No entry was touched later than `now`. */
  ghost predicate SeenBy<K(!new)>(entries: map<K, Bucket>, now: real) {
    forall k :: k in entries ==> entries[k].lastSeen <= now
  }

  // ---- arithmetic of refilling ----

  lemma DivideAdds(a: real, b: real, r: real)
    requires r > 0.0
    ensures (a + b) / r == a / r + b / r
  {
  }

  lemma DivideReaches(s: real, n: real, r: real)
    requires r > 0.0
    ensures s / r >= n <==> s >= n * r
  {
    var q := s / r;
    assert s == q * r;
    if q >= n { assert (q - n) * r >= 0.0; }
    if q < n { assert (n - q) * r > 0.0; }
  }

  /** The exact moment a bucket holds `target` tokens. */
  lemma ReachesExactly(l: Limits, level: real, seconds: real, target: real)
    requires target <= Burst(l)
    ensures Refilled(l, level, seconds) >= target <==> seconds >= (target - level) * l.refill
  {
    DivideReaches(seconds, target - level, l.refill);
  }

  lemma RefillAdds(l: Limits, level: real, a: real, b: real)
    requires a >= 0.0 && b >= 0.0
    ensures Refilled(l, Refilled(l, level, a), b) == Refilled(l, level, a + b)
  {
    DivideAdds(a, b, l.refill);
    DivideReaches(b, 0.0, l.refill);
  }

  lemma RefillBounds(l: Limits, level: real, seconds: real)
    requires seconds >= 0.0 && level <= Burst(l)
    ensures level <= Refilled(l, level, seconds) <= Burst(l)
    ensures Refilled(l, level, seconds) <= level + seconds / l.refill
  {
    DivideReaches(seconds, 0.0, l.refill);
  }

  lemma SmallerProduct(a: real, b: real, r: real)
    requires a <= b && r > 0.0
    ensures a * r <= b * r
  {
    assert (b - a) * r >= 0.0;
  }

  // ---- one call ----

  lemma ForgottenWasFull(l: Limits, b: Bucket, now: real)
    requires ForgetsOnlyFull(l) && BucketFits(l, b) && Since(now, b.lastSeen) >= l.ttl
    ensures TokensAt(l, b, now) == Burst(l)
  {
    SmallerProduct(Burst(l) - b.tokens, Burst(l), l.refill);
    ReachesExactly(l, b.tokens, Since(now, b.lastRefill), Burst(l));
  }

  lemma LevelFits(l: Limits, b: Bucket, now: real)
    requires BucketFits(l, b)
    ensures 0.0 <= TokensAt(l, b, now) <= Burst(l)
  {
    RefillBounds(l, b.tokens, Since(now, b.lastRefill));
  }

  lemma RetainKeepsLevels<K(!new)>(l: Limits, entries: map<K, Bucket>, now: real)
    requires ForgetsOnlyFull(l) && WellKept(l, entries)
    ensures WellKept(l, Retained(l, entries, now))
    ensures forall k :: Level(l, Retained(l, entries, now), k, now) == Level(l, entries, k, now)
  {
    SubsetSize(Retained(l, entries, now).Keys, entries.Keys);
    forall k ensures Level(l, Retained(l, entries, now), k, now) == Level(l, entries, k, now) {
      if k in entries && Since(now, entries[k].lastSeen) >= l.ttl {
        ForgottenWasFull(l, entries[k], now);
      }
    }
  }

  lemma MadeRoomKeepsLevels<K(!new)>(l: Limits, kept: map<K, Bucket>, now: real, roomy: map<K, Bucket>,
                                     refused: Option<real>)
    requires WellKept(l, kept) && MadeRoom(l, kept, now, roomy, refused)
    ensures WellKept(l, roomy)
    ensures refused.None? ==> |roomy| < l.capacity
    ensures refused.Some? ==> roomy == kept && |kept| == l.capacity && NoneEvictable(l, kept, now)
    ensures forall k :: Level(l, roomy, k, now) == Level(l, kept, k, now)
    ensures roomy.Keys <= kept.Keys
  {
    if |kept| >= l.capacity && !NoneEvictable(l, kept, now) {
      var e :| OldestEvictable(l, kept, now, e) && roomy == kept - {e};
      assert roomy.Keys == kept.Keys - {e};
      LevelFits(l, kept[e], now);
    }
  }

  lemma ChargeOne(l: Limits, b: Bucket, now: real)
    requires BucketFits(l, b)
    ensures var (a, v) := Charge(l, b, now);
            var level := TokensAt(l, b, now);
            && BucketFits(l, a) && a.lastSeen == now
            && (v.Allowed? <==> level >= 1.0)
            && (v.Limited? ==> v.delay == (1.0 - level) * l.refill)
            && TokensAt(l, a, now) == if v.Allowed? then level - 1.0 else level
  {
    LevelFits(l, b, now);
  }

  lemma ChargedLevels<K(!new)>(l: Limits, entries: map<K, Bucket>, key: K, now: real, after: map<K, Bucket>, v: Verdict)
    requires WellKept(l, entries) && key in entries && Charged(l, entries, key, now, after, v)
    ensures WellKept(l, after)
    ensures v.Allowed? <==> Level(l, entries, key, now) >= 1.0
    ensures v.Limited? ==> v.delay == (1.0 - Level(l, entries, key, now)) * l.refill
    ensures forall k :: Level(l, after, k, now) ==
              (if k == key && v.Allowed? then Level(l, entries, k, now) - 1.0 else Level(l, entries, k, now))
  {
    hide TokensAt, Charge, BucketFits;
    assert after.Keys == entries.Keys;
    ChargeOne(l, entries[key], now);
  }

  /** Why a call was turned away although its own bucket had a token: no entry can be given up. */
  ghost predicate NoRoom<K(!new)>(l: Limits, before: map<K, Bucket>, key: K, now: real, after: map<K, Bucket>,
                                  delay: real)
  {
    && after == Retained(l, before, now) && key !in after
    && |after| == l.capacity && NoneEvictable(l, after, now)
    && exists wait :: LeastWait(l, after, now, wait) && delay == AtLeastTick(wait)
  }

  lemma RefusedForRoom<K(!new)>(l: Limits, before: map<K, Bucket>, key: K, now: real, roomy: map<K, Bucket>,
                                delay: real)
    requires |Retained(l, before, now)| <= l.capacity && key !in Retained(l, before, now)
    requires MadeRoom(l, Retained(l, before, now), now, roomy, Some(delay))
    ensures NoRoom(l, before, key, now, roomy, delay)
  {
  }

  lemma AbsentIsFull<K>(l: Limits, entries: map<K, Bucket>, key: K, now: real)
    requires key !in entries
    ensures Level(l, entries, key, now) == Burst(l) >= 1.0
  {
  }

  lemma KeptSize<K(!new)>(l: Limits, entries: map<K, Bucket>)
    requires WellKept(l, entries)
    ensures |entries| <= l.capacity
  {
  }

  lemma NewBucketLevels<K(!new)>(l: Limits, roomy: map<K, Bucket>, key: K, now: real)
    requires WellKept(l, roomy) && key !in roomy && |roomy| < l.capacity
    ensures WellKept(l, roomy[key := Full(l, now)])
    ensures forall k :: Level(l, roomy[key := Full(l, now)], k, now) == Level(l, roomy, k, now)
  {
    assert roomy[key := Full(l, now)].Keys == roomy.Keys + {key};
    RefillBounds(l, Burst(l), 0.0);
  }

  /**
   * One call is one step of the key's ideal bucket, or a refusal for want of room that costs nobody
   * a token; either way no other key is affected and the map stays within its capacity. The clock
   * may have gone back since the last call.
   */
  lemma StepRefinesIdeal<K(!new)>(l: Limits, before: map<K, Bucket>, key: K, now: real, after: map<K, Bucket>,
                                  v: Verdict)
    requires ForgetsOnlyFull(l) && WellKept(l, before) && Step(l, before, key, now, after, v)
    ensures WellKept(l, after)
    ensures v.Allowed? ==> Level(l, before, key, now) >= 1.0
    ensures v.Limited? && Level(l, before, key, now) < 1.0 ==>
            v.delay == (1.0 - Level(l, before, key, now)) * l.refill && key in after
    ensures v.Limited? && Level(l, before, key, now) >= 1.0 ==> NoRoom(l, before, key, now, after, v.delay)
    ensures forall k :: Level(l, after, k, now) ==
              (if k == key && v.Allowed? then Level(l, before, k, now) - 1.0 else Level(l, before, k, now))
  {
    hide TokensAt, Refilled, BucketFits, Charge, Retained, MadeRoom, NoneEvictable, NoRoom, Level, WellKept;
    var kept := Retained(l, before, now);
    RetainKeepsLevels(l, before, now);
    if key in kept {
      ChargedLevels(l, kept, key, now, after, v);
    } else {
      var roomy, refused :| MadeRoom(l, kept, now, roomy, refused) && Inserted(l, roomy, refused, key, now, after, v);
      MadeRoomKeepsLevels(l, kept, now, roomy, refused);
      AbsentIsFull(l, kept, key, now);
      KeptSize(l, kept);
      match refused
      case None => {
        NewBucketLevels(l, roomy, key, now);
        ChargedLevels(l, roomy[key := Full(l, now)], key, now, after, v);
      }
      case Some(delay) => RefusedForRoom(l, before, key, now, roomy, delay);
    }
  }

  /** Calls in order of time leave no entry from the future. */
  lemma StepInOrder<K(!new)>(l: Limits, before: map<K, Bucket>, last: real, key: K, now: real, after: map<K, Bucket>,
                             v: Verdict)
    requires SeenBy(before, last) && last <= now && Step(l, before, key, now, after, v)
    ensures SeenBy(after, now)
  {
    hide TokensAt, Evictable, Wait;
  }

  /** The entry was given up for room although its time to live was not over. */
  predicate GivenUp<K>(l: Limits, before: map<K, Bucket>, now: real, after: map<K, Bucket>, k: K) {
    k in before && k !in after && Since(now, before[k].lastSeen) < l.ttl
  }

  /** After a call the map holds no entry that was not used for its time to live, and an admitted key. */
  lemma StepForgets<K(!new)>(l: Limits, before: map<K, Bucket>, key: K, now: real, after: map<K, Bucket>, v: Verdict)
    requires Step(l, before, key, now, after, v)
    ensures forall k :: k in after ==> Since(now, after[k].lastSeen) < l.ttl
    ensures v.Allowed? ==> key in after && after[key].lastSeen == now
    ensures forall k :: k in after && k != key ==> k in before && after[k] == before[k]
  {
    hide TokensAt, Evictable, Wait;
  }

  /** It gives up at most one entry, only in a full map, and one that is full and unseen for the longest time. */
  lemma StepGivesUpOldest<K(!new)>(l: Limits, before: map<K, Bucket>, key: K, now: real, after: map<K, Bucket>,
                                   v: Verdict, k: K)
    requires Step(l, before, key, now, after, v) && GivenUp(l, before, now, after, k)
    ensures |before| >= l.capacity && Evictable(l, before[k], now)
    ensures forall j :: j in after && j != key && Evictable(l, before[j], now) ==>
              before[k].lastSeen <= before[j].lastSeen
    ensures forall j :: GivenUp(l, before, now, after, j) ==> j == k
  {
    hide TokensAt, Evictable, Wait;
    SubsetSize(Retained(l, before, now).Keys, before.Keys);
  }

  lemma LevelPasses<K(!new)>(l: Limits, entries: map<K, Bucket>, k: K, t: real, later: real)
    requires t <= later && WellKept(l, entries) && SeenBy(entries, t)
    ensures Level(l, entries, k, later) == Refilled(l, Level(l, entries, k, t), later - t)
  {
    if k in entries {
      RefillAdds(l, entries[k].tokens, t - entries[k].lastRefill, later - t);
    } else {
      RefillBounds(l, Burst(l), later - t);
    }
  }

  // ---- every run of calls ----

  datatype Call<K> = Call(key: K, at: real, verdict: Verdict)

  ghost predicate CallAt<K(!new)>(l: Limits, maps: seq<map<K, Bucket>>, calls: seq<Call<K>>, i: nat) {
    i < |calls| && i + 1 < |maps| && Step(l, maps[i], calls[i].key, calls[i].at, maps[i + 1], calls[i].verdict)
  }

  ghost predicate InOrder<K>(calls: seq<Call<K>>) {
    forall i, j :: 0 <= i <= j < |calls| ==> calls[i].at <= calls[j].at
  }

  /** Calls on one map from empty, in the order of its lock. */
  ghost predicate IsHistory<K(!new)>(l: Limits, maps: seq<map<K, Bucket>>, calls: seq<Call<K>>) {
    && |maps| == |calls| + 1 && maps[0] == map[]
    && forall i :: 0 <= i < |calls| ==> CallAt(l, maps, calls, i)
  }

  /** At times that never go back. */
  ghost predicate IsTrace<K(!new)>(l: Limits, maps: seq<map<K, Bucket>>, calls: seq<Call<K>>) {
    IsHistory(l, maps, calls) && InOrder(calls)
  }

  /** The ideal bucket of `k`: it starts full, is never forgotten, and pays one token per admitted call. */
  function Ideal<K(==)>(l: Limits, calls: seq<Call<K>>, k: K, t: real): real {
    if calls == [] then Burst(l)
    else
      var c := calls[|calls| - 1];
      var level := Ideal(l, calls[..|calls| - 1], k, c.at);
      Refilled(l, if c.key == k && c.verdict.Allowed? then level - 1.0 else level, t - c.at)
  }

  lemma {:induction false} MapAgreesWithIdeal<K(!new)>(l: Limits, maps: seq<map<K, Bucket>>, calls: seq<Call<K>>,
      n: nat, k: K, t: real)
    requires ForgetsOnlyFull(l) && IsTrace(l, maps, calls) && n <= |calls| && (n > 0 ==> calls[n - 1].at <= t)
    ensures Level(l, maps[n], k, t) == Ideal(l, calls[..n], k, t)
    ensures WellKept(l, maps[n]) && SeenBy(maps[n], t)
    decreases n
  {
    hide Step, TokensAt, Refilled, NoRoom, Retained;
    if n > 0 {
      var c := calls[n - 1];
      MapAgreesWithIdeal(l, maps, calls, n - 1, k, c.at);
      assert CallAt(l, maps, calls, n - 1);
      StepRefinesIdeal(l, maps[n - 1], c.key, c.at, maps[n], c.verdict);
      StepInOrder(l, maps[n - 1], c.at, c.key, c.at, maps[n], c.verdict);
      LevelPasses(l, maps[n], k, c.at, t);
      assert calls[..n][..n - 1] == calls[..n - 1];
    }
  }

  /** Every answer of the map is the ideal bucket's own answer, unless the map has no room for the key. */
  lemma VerdictsAreIdeal<K(!new)>(l: Limits, maps: seq<map<K, Bucket>>, calls: seq<Call<K>>, n: nat)
    requires ForgetsOnlyFull(l) && IsTrace(l, maps, calls) && n < |calls|
    ensures var c := calls[n];
            var level := Ideal(l, calls[..n], c.key, c.at);
            && |maps[n + 1]| <= l.capacity
            && (c.verdict.Allowed? ==> level >= 1.0)
            && (c.verdict.Limited? ==>
                  if level < 1.0 then c.verdict.delay == (1.0 - level) * l.refill
                  else NoRoom(l, maps[n], c.key, c.at, maps[n + 1], c.verdict.delay))
  {
    hide Step, TokensAt, Refilled, NoRoom, BucketFits, Retained;
    var c := calls[n];
    MapAgreesWithIdeal(l, maps, calls, n, c.key, c.at);
    assert CallAt(l, maps, calls, n);
    StepRefinesIdeal(l, maps[n], c.key, c.at, maps[n + 1], c.verdict);
  }

  // ---- rate bound ----

  /** Admitted calls of `k` in the closed interval [from, to]. */
  function Admitted<K(==)>(calls: seq<Call<K>>, k: K, from: real, to: real): nat {
    if calls == [] then 0
    else
      var c := calls[|calls| - 1];
      Admitted(calls[..|calls| - 1], k, from, to) +
          (if c.key == k && c.verdict.Allowed? && from <= c.at <= to then 1 else 0)
  }

  lemma {:induction false} NoneBefore<K>(calls: seq<Call<K>>, k: K, from: real, to: real)
    requires forall i :: 0 <= i < |calls| ==> calls[i].at < from
    ensures Admitted(calls, k, from, to) == 0
    decreases |calls|
  {
    if calls != [] { NoneBefore(calls[..|calls| - 1], k, from, to); }
  }

  lemma IdealBounds<K(!new)>(l: Limits, maps: seq<map<K, Bucket>>, calls: seq<Call<K>>, n: nat, k: K, t: real)
    requires ForgetsOnlyFull(l) && IsTrace(l, maps, calls) && n <= |calls| && (n > 0 ==> calls[n - 1].at <= t)
    ensures 0.0 <= Ideal(l, calls[..n], k, t) <= Burst(l)
  {
    MapAgreesWithIdeal(l, maps, calls, n, k, t);
    if k in maps[n] { LevelFits(l, maps[n][k], t); }
  }

  /** What was spent since `from` and what is left came from one full bucket and the refill since. */
  lemma {:induction false} SpentFromBudget<K(!new)>(l: Limits, maps: seq<map<K, Bucket>>, calls: seq<Call<K>>, n: nat,
      k: K, from: real, to: real, t: real)
    requires ForgetsOnlyFull(l) && IsTrace(l, maps, calls) && n <= |calls| && from <= t
    requires n > 0 ==> calls[n - 1].at <= t
    ensures Admitted(calls[..n], k, from, to) as real + Ideal(l, calls[..n], k, t) <= Burst(l) + (t - from) / l.refill
    decreases n
  {
    DivideReaches(t - from, 0.0, l.refill);
    if n == 0 || calls[n - 1].at < from {
      NoneBefore(calls[..n], k, from, to);
      IdealBounds(l, maps, calls, n, k, t);
    } else {
      var c := calls[n - 1];
      SpentFromBudget(l, maps, calls, n - 1, k, from, to, c.at);
      assert calls[..n][..n - 1] == calls[..n - 1];
      IdealBounds(l, maps, calls, n - 1, k, c.at);
      var level := Ideal(l, calls[..n - 1], k, c.at);
      var left := if c.key == k && c.verdict.Allowed? then level - 1.0 else level;
      RefillBounds(l, left, t - c.at);
      DivideAdds(c.at - from, t - c.at, l.refill);
    }
  }

  /** However entries were evicted, expired and recreated, a key gets at most `burst + T / refill` calls in time T. */
  lemma {:induction false} RateBound<K(!new)>(l: Limits, maps: seq<map<K, Bucket>>, calls: seq<Call<K>>, n: nat, k: K,
                                              from: real, to: real)
    requires ForgetsOnlyFull(l) && IsTrace(l, maps, calls) && n <= |calls| && from <= to
    ensures Admitted(calls[..n], k, from, to) as real <= Burst(l) + (to - from) / l.refill
    decreases n
  {
    if n > 0 && calls[n - 1].at > to {
      RateBound(l, maps, calls, n - 1, k, from, to);
      assert calls[..n][..n - 1] == calls[..n - 1];
    } else {
      SpentFromBudget(l, maps, calls, n, k, from, to, to);
      IdealBounds(l, maps, calls, n, k, to);
    }
  }

  // ---- calls out of order ----

  function Admissions<K(==)>(calls: seq<Call<K>>, k: K): nat {
    if calls == [] then 0
    else
      var c := calls[|calls| - 1];
      Admissions(calls[..|calls| - 1], k) + (if c.key == k && c.verdict.Allowed? then 1 else 0)
  }

  /** How far the clock readings of successive calls move forward, all in all; steps back do not count. */
  function Forward<K>(calls: seq<Call<K>>): real {
    if |calls| <= 1 then 0.0
    else Forward(calls[..|calls| - 1]) + Since(calls[|calls| - 1].at, calls[|calls| - 2].at)
  }

  /** Between two readings in either order a level gains at most the refill of the way forward. */
  lemma LevelMoves<K(!new)>(l: Limits, entries: map<K, Bucket>, k: K, t: real, later: real)
    requires WellKept(l, entries)
    ensures Level(l, entries, k, later) <= Level(l, entries, k, t) + Since(later, t) / l.refill
    ensures 0.0 <= Level(l, entries, k, t) <= Burst(l)
  {
    DivideReaches(Since(later, t), 0.0, l.refill);
    if k in entries {
      var b := entries[k];
      LevelFits(l, b, t);
      DivideReaches(Since(t, b.lastRefill) + Since(later, t) - Since(later, b.lastRefill), 0.0, l.refill);
      DivideAdds(Since(t, b.lastRefill), Since(later, t), l.refill);
      DivideAdds(Since(later, b.lastRefill), Since(t, b.lastRefill) + Since(later, t) - Since(later, b.lastRefill),
                 l.refill);
    }
  }

  lemma {:induction false} HistoryIsWellKept<K(!new)>(l: Limits, maps: seq<map<K, Bucket>>, calls: seq<Call<K>>, n: nat)
    requires ForgetsOnlyFull(l) && IsHistory(l, maps, calls) && n <= |calls|
    ensures WellKept(l, maps[n])
    decreases n
  {
    hide Step, BucketFits;
    if n > 0 {
      HistoryIsWellKept(l, maps, calls, n - 1);
      assert CallAt(l, maps, calls, n - 1);
      StepRefinesIdeal(l, maps[n - 1], calls[n - 1].key, calls[n - 1].at, maps[n], calls[n - 1].verdict);
    }
  }

  lemma {:induction false} SpentInAnyOrder<K(!new)>(l: Limits, maps: seq<map<K, Bucket>>, calls: seq<Call<K>>, m: nat,
      n: nat, k: K)
    requires ForgetsOnlyFull(l) && IsHistory(l, maps, calls) && m < n <= |calls|
    ensures Admissions(calls[m..n], k) as real + Level(l, maps[n], k, calls[n - 1].at) <=
            Burst(l) + Forward(calls[m..n]) / l.refill
    decreases n
  {
    hide Step, Level, WellKept;
    var c, window := calls[n - 1], calls[m..n];
    HistoryIsWellKept(l, maps, calls, n - 1);
    assert CallAt(l, maps, calls, n - 1);
    StepRefinesIdeal(l, maps[n - 1], c.key, c.at, maps[n], c.verdict);
    assert window[..|window| - 1] == calls[m..n - 1];
    if n - 1 == m {
      LevelMoves(l, maps[m], k, c.at, c.at);
      assert window[..0] == [];
      assert Admissions(window[..0], k) == 0;
    } else {
      SpentInAnyOrder(l, maps, calls, m, n - 1, k);
      LevelMoves(l, maps[n - 1], k, calls[n - 2].at, c.at);
      DivideAdds(Forward(calls[m..n - 1]), Since(c.at, calls[n - 2].at), l.refill);
      assert window[|window| - 2] == calls[n - 2];
    }
  }

  /**
   * Whatever the clock readings of the calls, any of them in a row admit at most `burst` calls of a
   * key and one for each refill of the way the readings moved forward.
   */
  lemma AnyOrderBound<K(!new)>(l: Limits, maps: seq<map<K, Bucket>>, calls: seq<Call<K>>, m: nat, n: nat, k: K)
    requires ForgetsOnlyFull(l) && IsHistory(l, maps, calls) && m < n <= |calls|
    ensures Admissions(calls[m..n], k) as real <= Burst(l) + Forward(calls[m..n]) / l.refill
  {
    hide Step, WellKept;
    SpentInAnyOrder(l, maps, calls, m, n, k);
    HistoryIsWellKept(l, maps, calls, n);
    LevelMoves(l, maps[n], k, calls[n - 1].at, calls[n - 1].at);
  }

  /** In order of time that way is just the time from the first call to the last. */
  lemma {:induction false} ForwardInOrder<K>(calls: seq<Call<K>>)
    requires InOrder(calls) && calls != []
    ensures Forward(calls) == calls[|calls| - 1].at - calls[0].at
    decreases |calls|
  {
    if |calls| > 1 { ForwardInOrder(calls[..|calls| - 1]); }
  }

  const SINGLE: Limits := LimitData(1, 1.0, 1, 100.0)

  /** The one bucket of key 0 after the calls below. */
  function Alone(tokens: real, t: real): map<nat, Bucket> { map[0 := Bucket(tokens, t, t)] }

  lemma SingleStep(before: map<nat, Bucket>, b: Bucket, now: real)
    requires before == map[0 := b] && Since(now, b.lastSeen) < 100.0
    ensures Step(SINGLE, before, 0, now, map[0 := Charge(SINGLE, b, now).0], Charge(SINGLE, b, now).1)
  {
    assert Retained(SINGLE, before, now) == before;
    assert before[0 := Charge(SINGLE, b, now).0] == map[0 := Charge(SINGLE, b, now).0];
  }

  /**
   * The order of calls is needed: a call at 10, one at 0 and one at 10 again, as two threads may
   * deliver them, admit two calls of one key at the same moment although the burst is one.
   */
  lemma OutOfOrderExceedsRate() returns (maps: seq<map<nat, Bucket>>, calls: seq<Call<nat>>)
    ensures IsHistory(SINGLE, maps, calls) && !InOrder(calls)
    ensures ForgetsOnlyFull(SINGLE)
            && Admitted(calls, 0, 10.0, 10.0) as real > Burst(SINGLE) + (10.0 - 10.0) / SINGLE.refill
  {
    hide Step, Alone;
    maps := [map[], Alone(0.0, 10.0), Alone(0.0, 0.0), Alone(0.0, 10.0)];
    calls := [Call(0, 10.0, Allowed), Call(0, 0.0, Limited(1.0)), Call(0, 10.0, Allowed)];
    FirstCall();
    LaterCalls();
    assert calls[0].at > calls[1].at;
    TwoAdmitted(calls);
  }

  lemma LaterCalls()
    ensures Step(SINGLE, Alone(0.0, 10.0), 0, 0.0, Alone(0.0, 0.0), Limited(1.0))
    ensures Step(SINGLE, Alone(0.0, 0.0), 0, 10.0, Alone(0.0, 10.0), Allowed)
  {
    hide Step;
    SingleStep(Alone(0.0, 10.0), Bucket(0.0, 10.0, 10.0), 0.0);
    SingleStep(Alone(0.0, 0.0), Bucket(0.0, 0.0, 0.0), 10.0);
  }

  lemma TwoAdmitted(calls: seq<Call<nat>>)
    requires calls == [Call(0, 10.0, Allowed), Call(0, 0.0, Limited(1.0)), Call(0, 10.0, Allowed)]
    ensures Admitted(calls, 0, 10.0, 10.0) == 2
  {
    var two, one := calls[..2], calls[..1];
    assert two[..1] == one && one[..0] == [];
    assert Admitted(one, 0, 10.0, 10.0) == 1 && Admitted(two, 0, 10.0, 10.0) == 1;
  }

  lemma FirstCall()
    ensures Step(SINGLE, map[], 0, 10.0, Alone(0.0, 10.0), Allowed)
  {
    var none: map<nat, Bucket> := map[];
    assert Retained(SINGLE, none, 10.0) == none;
    assert MadeRoom(SINGLE, none, 10.0, none, None);
    assert none[0 := Full(SINGLE, 10.0)] == map[0 := Full(SINGLE, 10.0)];
    assert Inserted(SINGLE, none, None, 0, 10.0, Alone(0.0, 10.0), Allowed);
  }

  // ---- retry delays ----

  /** A known key always finds room: it is still there, or it has just left a free place. */
  lemma KnownKeyHasRoom<K(!new)>(l: Limits, entries: map<K, Bucket>, key: K, t: real, later: map<K, Bucket>,
                                 delay: real)
    requires key in entries && |entries| <= l.capacity
    ensures !NoRoom(l, entries, key, t, later, delay)
  {
    var kept := Retained(l, entries, t);
    if key !in kept {
      SubsetSize(kept.Keys, entries.Keys - {key});
    }
  }

  /** After a refusal by a drained bucket, the same key is admitted exactly from the stated delay on. */
  lemma DrainedRetryIsExact<K(!new)>(l: Limits, before: map<K, Bucket>, last: real, key: K, now: real,
                                     after: map<K, Bucket>, v: Verdict,
                                     t: real, later: map<K, Bucket>, w: Verdict)
    requires ForgetsOnlyFull(l) && WellKept(l, before) && SeenBy(before, last) && last <= now <= t
    requires Step(l, before, key, now, after, v) && Step(l, after, key, t, later, w)
    requires v.Limited? && Level(l, before, key, now) < 1.0
    ensures w.Allowed? <==> t >= now + v.delay
  {
    hide Step, Retained, TokensAt, Refilled, NoRoom, BucketFits;
    StepRefinesIdeal(l, before, key, now, after, v);
    StepInOrder(l, before, last, key, now, after, v);
    StepRefinesIdeal(l, after, key, t, later, w);
    LevelPasses(l, after, key, now, t);
    ReachesExactly(l, Level(l, after, key, now), t - now, 1.0);
    if w.Limited? { KnownKeyHasRoom(l, after, key, t, later, w.delay); }
  }

  lemma FullExactly(l: Limits, b: Bucket, now: real, t: real)
    requires BucketFits(l, b) && b.lastSeen <= now <= t
    ensures Evictable(l, b, t) <==> t - now >= Wait(l, b, now)
  {
    LevelFits(l, b, now);
    RefillAdds(l, b.tokens, now - b.lastRefill, t - now);
    ReachesExactly(l, TokensAt(l, b, now), t - now, Burst(l));
  }

  /** A call for a key that a full map knows nothing of succeeds exactly when some entry may be given up. */
  lemma RoomExactly<K(!new)>(l: Limits, entries: map<K, Bucket>, key: K, t: real, later: map<K, Bucket>, w: Verdict)
    requires ForgetsOnlyFull(l) && WellKept(l, entries) && key !in entries && |entries| == l.capacity
    requires Step(l, entries, key, t, later, w)
    ensures w.Allowed? <==> exists k :: k in entries && Evictable(l, entries[k], t)
  {
    var kept := Retained(l, entries, t);
    StepRefinesIdeal(l, entries, key, t, later, w);
    if k :| k in entries && Evictable(l, entries[k], t) {
      if w.Limited? {
        assert kept.Keys <= entries.Keys;
        if k !in kept { SubsetSize(kept.Keys, entries.Keys - {k}); }
        assert false;
      }
    } else {
      forall k | k in entries ensures k in kept {
        if k !in kept { ForgottenWasFull(l, entries[k], t); }
      }
      assert kept == entries;
    }
  }

  /** After a refusal for want of room, the key is admitted exactly from the moment some entry is full. */
  lemma FullMapWait<K(!new)>(l: Limits, before: map<K, Bucket>, last: real, key: K, now: real, after: map<K, Bucket>,
                             v: Verdict, t: real, later: map<K, Bucket>, w: Verdict) returns (wait: real)
    requires ForgetsOnlyFull(l) && WellKept(l, before) && SeenBy(before, last) && last <= now <= t
    requires Step(l, before, key, now, after, v) && Step(l, after, key, t, later, w)
    requires v.Limited? && Level(l, before, key, now) >= 1.0
    ensures wait > 0.0 && LeastWait(l, after, now, wait) && v.delay == AtLeastTick(wait)
    ensures w.Allowed? <==> t >= now + wait
  {
    StepRefinesIdeal(l, before, key, now, after, v);
    StepInOrder(l, before, last, key, now, after, v);
    wait :| LeastWait(l, after, now, wait) && v.delay == AtLeastTick(wait);
    RoomExactly(l, after, key, t, later, w);
    forall k | k in after ensures Evictable(l, after[k], t) <==> t - now >= Wait(l, after[k], now) {
      FullExactly(l, after[k], now, t);
    }
    var m :| m in after && Wait(l, after[m], now) == wait;
    FullExactly(l, after[m], now, now);
  }

  /** So the stated delay is exact at every later tick of the clock, and fails only between two ticks. */
  lemma FullMapRetryIsExact<K(!new)>(l: Limits, before: map<K, Bucket>, last: real, key: K, now: real,
                                     after: map<K, Bucket>, v: Verdict,
                                     t: real, later: map<K, Bucket>, w: Verdict)
    requires ForgetsOnlyFull(l) && WellKept(l, before) && SeenBy(before, last) && last <= now <= t
    requires Step(l, before, key, now, after, v) && Step(l, after, key, t, later, w)
    requires v.Limited? && Level(l, before, key, now) >= 1.0
    ensures t == now || t >= now + NANOSECOND ==> (w.Allowed? <==> t >= now + v.delay)
    ensures (w.Allowed? <==> t >= now + v.delay) <==>
            !(now < t < now + NANOSECOND && exists k :: k in after && Evictable(l, after[k], t))
  {
    var wait := FullMapWait(l, before, last, key, now, after, v, t, later, w);
    StepRefinesIdeal(l, before, key, now, after, v);
    RoomExactly(l, after, key, t, later, w);
  }

  /** Half a nanosecond before the one entry is full again. */
  const HALF_TICK_EARLY: real := 11.0 - NANOSECOND / 2.0

  /**
   * Ticks are needed: a key turned away half a nanosecond before the one entry is full is told to
   * wait for a whole one, and admitted after half of it.
   */
  lemma AdmittedBetweenTicks() returns (maps: seq<map<nat, Bucket>>, calls: seq<Call<nat>>)
    ensures IsTrace(SINGLE, maps, calls) && |calls| == 3
    ensures calls[1].key == calls[2].key && calls[1].verdict == Limited(NANOSECOND)
    ensures calls[2].at < calls[1].at + NANOSECOND && calls[2].verdict.Allowed?
  {
    hide Step, Alone;
    FirstCall();
    TurnedAway();
    TakesThePlace();
    maps := [map[], Alone(0.0, 10.0), Alone(0.0, 10.0), map[1 := Bucket(0.0, 11.0, 11.0)]];
    calls := [Call(0, 10.0, Allowed), Call(1, HALF_TICK_EARLY, Limited(NANOSECOND)), Call(1, 11.0, Allowed)];
    assert CallAt(SINGLE, maps, calls, 0) && CallAt(SINGLE, maps, calls, 1) && CallAt(SINGLE, maps, calls, 2);
  }

  lemma TurnedAway()
    ensures Step(SINGLE, Alone(0.0, 10.0), 1, HALF_TICK_EARLY, Alone(0.0, 10.0), Limited(NANOSECOND))
  {
    var one := Alone(0.0, 10.0);
    assert Retained(SINGLE, one, HALF_TICK_EARLY) == one;
    assert |one.Keys| == |{0}|;
    assert Wait(SINGLE, one[0], HALF_TICK_EARLY) == NANOSECOND / 2.0;
    assert LeastWait(SINGLE, one, HALF_TICK_EARLY, NANOSECOND / 2.0);
    assert MadeRoom(SINGLE, one, HALF_TICK_EARLY, one, Some(NANOSECOND));
    assert Inserted(SINGLE, one, Some(NANOSECOND), 1, HALF_TICK_EARLY, one, Limited(NANOSECOND));
  }

  lemma TakesThePlace()
    ensures Step(SINGLE, Alone(0.0, 10.0), 1, 11.0, map[1 := Bucket(0.0, 11.0, 11.0)], Allowed)
  {
    var one, none := Alone(0.0, 10.0), Nothing();
    assert Retained(SINGLE, one, 11.0) == one;
    OneIsEvicted();
    NewIsCharged();
    hide Retained, MadeRoom, Inserted;
  }

  function Nothing(): map<nat, Bucket> { map[] }

  lemma OneIsEvicted()
    ensures MadeRoom(SINGLE, Alone(0.0, 10.0), 11.0, Nothing(), None)
  {
    var one := Alone(0.0, 10.0);
    assert |one.Keys| == |{0}|;
    assert OldestEvictable(SINGLE, one, 11.0, 0);
    assert Nothing() == one - {0};
  }

  lemma NewIsCharged()
    ensures Inserted(SINGLE, Nothing(), None, 1, 11.0, map[1 := Bucket(0.0, 11.0, 11.0)], Allowed)
  {
    var roomy := Nothing()[1 := Full(SINGLE, 11.0)];
    assert Charge(SINGLE, roomy[1], 11.0) == (Bucket(0.0, 11.0, 11.0), Allowed);
    assert roomy[1 := Bucket(0.0, 11.0, 11.0)] == map[1 := Bucket(0.0, 11.0, 11.0)];
  }

  /** The Retry-After header: whole seconds, rounded up, at least one. */
  function RetryAfterSeconds(delay: real): (seconds: int)
    requires delay >= 0.0
    ensures seconds >= 1 && delay <= seconds as real
    ensures seconds == 1 || seconds as real < delay + 1.0
  {
    var whole := delay.Floor;
    var up := if whole as real < delay then whole + 1 else whole;
    if up < 1 then 1 else up
  }

  /** The limits in production; the report buckets refill 16 tokens a second. */
  const CREATE_SOURCE: Limits := LimitData(24, 5.0, 4096, 3600.0)
  const CREATE_DEVICE: Limits := LimitData(6, 30.0, 8192, 3600.0)
  const POLL_SOURCE: Limits := LimitData(240, 0.25, 4096, 3600.0)
  const POLL_REQUEST: Limits := LimitData(30, 1.0, 8192, 3600.0)
  const ACTIVATE_SOURCE: Limits := LimitData(16, 5.0, 4096, 3600.0)
  const ACTIVATE_REQUEST: Limits := LimitData(6, 30.0, 8192, 3600.0)
  const INVITE_ACCOUNT: Limits := LimitData(32, 10.0, 8192, 3600.0)
  const REPORTS: Limits := LimitData(64, 0.0625, 16384, 900.0)

  lemma ProductionForgetsOnlyFull()
    ensures ForgetsOnlyFull(CREATE_SOURCE) && ForgetsOnlyFull(CREATE_DEVICE)
    ensures ForgetsOnlyFull(POLL_SOURCE) && ForgetsOnlyFull(POLL_REQUEST)
    ensures ForgetsOnlyFull(ACTIVATE_SOURCE) && ForgetsOnlyFull(ACTIVATE_REQUEST)
    ensures ForgetsOnlyFull(INVITE_ACCOUNT) && ForgetsOnlyFull(REPORTS)
  {
  }

  /** The report bucket's own formula, in tokens per second, is the same refill. */
  lemma ReportRefillIsTheSame(tokens: real, seconds: real)
    ensures Refilled(REPORTS, tokens, seconds) ==
            if tokens + seconds * 16.0 < 64.0 then tokens + seconds * 16.0 else 64.0
    ensures (1.0 - tokens) * REPORTS.refill == (1.0 - tokens) / 16.0
  {
    assert seconds / REPORTS.refill == seconds * 16.0;
  }
}
