/**
 The ingest API's token-bucket limiter. Buckets that stay idle are forgotten, on request or when
 there are too many; a key without a bucket starts with a full one. Time is a real clock.
 */
module RateLimiter {
  import opened Wrappers

  datatype Plan = Plan(rate: real, burst: int)
  {
    predicate Valid() { rate > 0.0 && burst > 0 }
  }

  datatype Bucket = Bucket(tokens: real, lastRefill: real, lastAccess: real)

  datatype Decision = Invalid | Allowed | Denied(retryAfter: real)

  const DEFAULT_MAX_IDLE := 3600.0
  const DEFAULT_MAX_BUCKETS := 50_000

  // --------------------------------------------------------------------- one bucket

  function Gain(rate: real, elapsed: real): real { elapsed * rate }

  function Least(x: real, y: real): real { if x <= y then x else y }

  /** What a bucket holds at a later time. */
  function Level(b: Bucket, plan: Plan, now: real): real {
    Least(plan.burst as real, b.tokens + Gain(plan.rate, now - b.lastRefill))
  }

  function Decide(b: Option<Bucket>, plan: Plan, now: real): Decision {
    if !plan.Valid() then Invalid
    else if b.None? || Level(b.value, plan, now) >= 1.0 then Allowed
    else Denied((1.0 - Level(b.value, plan, now)) / plan.rate)
  }

  /** The bucket after a request under a valid plan. */
  function Spend(b: Option<Bucket>, plan: Plan, now: real): Bucket {
    if b.None? then Bucket(plan.burst as real - 1.0, now, now)
    else
      var level := Level(b.value, plan, now);
      Bucket(if level < 1.0 then level else level - 1.0, now, now)
  }

  // ------------------------------------------------------------------- the dictionary

  type Buckets = map<string, Bucket>

  function Lookup(m: Buckets, key: string): Option<Bucket> {
    if key in m then Some(m[key]) else None
  }

  function Evict(m: Buckets, threshold: real): Buckets {
    map key | key in m && m[key].lastAccess >= threshold :: m[key]
  }

  function MaybeEvict(m: Buckets, now: real): Buckets {
    if |m| <= DEFAULT_MAX_BUCKETS then m else Evict(m, now - DEFAULT_MAX_IDLE)
  }

  function Consumed(m: Buckets, key: string, plan: Plan, now: real): Buckets {
    if !plan.Valid() then m
    else
      var after := m[key := Spend(Lookup(m, key), plan, now)];
      if key in m then after else MaybeEvict(after, now)
  }

  /** Tokens earned since the last refill, up to the burst. */
  lemma LevelIs(b: Bucket, plan: Plan, now: real)
    ensures var earned := b.tokens + (now - b.lastRefill) * plan.rate;
            Level(b, plan, now) == if earned > plan.burst as real then plan.burst as real else earned
  {
    GainIs(plan.rate, now - b.lastRefill);
  }

  lemma GainIs(rate: real, elapsed: real)
    ensures Gain(rate, elapsed) == elapsed * rate
  {}

  /** A known key: one token of what its bucket holds by now is taken if there is one, else the wait
      for it is reported. Both clocks are set, and no other bucket changes. */
  lemma KnownKey(m: Buckets, key: string, plan: Plan, now: real, tokens: real)
    requires plan.rate > 0.0 && plan.burst > 0 && key in m && tokens == Level(m[key], plan, now)
    ensures Decide(Lookup(m, key), plan, now) == if tokens < 1.0 then Denied((1.0 - tokens) / plan.rate) else Allowed
    ensures Consumed(m, key, plan, now) == m[key := Bucket(if tokens < 1.0 then tokens else tokens - 1.0, now, now)]
  {}

  /** A new key is admitted and starts with the rest of a full burst; if that makes more than
      50,000 buckets, exactly those not used for over an hour go. */
  lemma NewKey(m: Buckets, key: string, plan: Plan, now: real)
    requires plan.rate > 0.0 && plan.burst > 0 && key !in m
    ensures Decide(Lookup(m, key), plan, now) == Allowed
    ensures var after := Consumed(m, key, plan, now);
            && key in after && after[key] == Bucket(plan.burst as real - 1.0, now, now)
            && forall k :: k != key ==>
                 && (k in after <==> k in m && (|m| < 50_000 || m[k].lastAccess >= now - 3600.0))
                 && (k in after ==> after[k] == m[k])
  {
    var added := m[key := Spend(None, plan, now)];
    assert added.Keys == m.Keys + {key};
  }

  /** Zero counts as not given. */
  function IdleLimit(maxIdle: Option<real>): real {
    if maxIdle.Some? && maxIdle.value != 0.0 then maxIdle.value else DEFAULT_MAX_IDLE
  }

  class Limiter {
    var buckets: Buckets

    constructor ()
      ensures buckets == map[]
    {
      buckets := map[];
    }

    method Consume(key: string, plan: Plan, now: real) returns (r: Decision)
      modifies this
      ensures buckets == Consumed(old(buckets), key, plan, now)
      ensures r == Decide(Lookup(old(buckets), key), plan, now)
      ensures r.Invalid? <==> plan.rate <= 0.0 || plan.burst <= 0
    {
      if plan.rate <= 0.0 || plan.burst <= 0 {
        return Invalid;
      }
      if key !in buckets {
        buckets := buckets[key := Bucket(plan.burst as real - 1.0, now, now)];
        if |buckets| > DEFAULT_MAX_BUCKETS {
          var _ := RemoveStale(now - DEFAULT_MAX_IDLE);
        }
        return Allowed;
      }
      var state := buckets[key];
      var replenished := Gain(plan.rate, now - state.lastRefill);
      var tokens := Least(plan.burst as real, state.tokens + replenished);
      if tokens < 1.0 {
        buckets := buckets[key := Bucket(tokens, now, now)];
        r := Denied((1.0 - tokens) / plan.rate);
      } else {
        buckets := buckets[key := Bucket(tokens - 1.0, now, now)];
        r := Allowed;
      }
    }

    method Cleanup(maxIdle: Option<real>, now: real) returns (n: nat)
      modifies this
      ensures buckets == Evict(old(buckets), now - IdleLimit(maxIdle))
      ensures n == |old(buckets)| - |buckets|
      ensures var limit := if maxIdle.None? || maxIdle.value == 0.0 then 3600.0 else maxIdle.value;
              forall k :: && (k in buckets <==> k in old(buckets) && old(buckets)[k].lastAccess >= now - limit)
                          && (k in buckets ==> buckets[k] == old(buckets)[k])
    {
      n := RemoveStale(now - IdleLimit(maxIdle));
    }

    /** Collects the stale keys, then deletes them one by one. */
    method RemoveStale(threshold: real) returns (n: nat)
      modifies this
      ensures buckets == Evict(old(buckets), threshold)
      ensures n == |old(buckets)| - |buckets|
    {
      ghost var before := buckets;
      var stale := Stale(buckets, threshold);
      var rest := stale;
      RemoveNone(before, stale);
      while rest != {}
        invariant rest <= stale && buckets == Without(before, stale, rest)
        decreases |rest|
      {
        var key :| key in rest;
        RemoveOne(before, stale, rest, key);
        buckets, rest := buckets - {key}, rest - {key};
      }
      EvictRemovesStale(before, threshold);
      n := |stale|;
    }
  }

  function Stale(m: Buckets, threshold: real): set<string> {
    set key | key in m && m[key].lastAccess < threshold
  }

  /** The dictionary when `rest` of the keys in `stale` are still to be deleted. */
  function Without(m: Buckets, stale: set<string>, rest: set<string>): Buckets {
    m - (stale - rest)
  }

  lemma RemoveNone(m: Buckets, stale: set<string>)
    ensures Without(m, stale, stale) == m
  {}

  lemma RemoveOne(m: Buckets, stale: set<string>, rest: set<string>, key: string)
    requires key in rest && rest <= stale
    ensures Without(m, stale, rest) - {key} == Without(m, stale, rest - {key})
  {}

  lemma EvictRemovesStale(m: Buckets, threshold: real)
    ensures Evict(m, threshold) == Without(m, Stale(m, threshold), {})
    ensures |Evict(m, threshold)| + |Stale(m, threshold)| == |m|
  {
    assert Evict(m, threshold).Keys + Stale(m, threshold) == m.Keys;
    assert |Evict(m, threshold).Keys + Stale(m, threshold)| == |Evict(m, threshold).Keys| + |Stale(m, threshold)|;
  }

  // ------------------------------------------------------------------------------ runs

  datatype Event =
    | Request(key: string, time: real)
    | Sweep(maxIdle: Option<real>, time: real)

  /** The plan of every key, fixed for a run. */
  type Plans = string -> Plan

  predicate Ordered(events: seq<Event>) {
    forall i, j :: 0 <= i <= j < |events| ==> events[i].time <= events[j].time
  }

  /** The limiter's dictionary after a run. */
  function State(plans: Plans, events: seq<Event>): Buckets {
    if events == [] then map[]
    else
      var m, e := State(plans, events[..|events| - 1]), events[|events| - 1];
      match e
      case Request(key, time) => Consumed(m, key, plans(key), time)
      case Sweep(maxIdle, time) => Evict(m, time - IdleLimit(maxIdle))
  }

  /** A key's bucket in a limiter that never forgets one. */
  function Kept(plans: Plans, events: seq<Event>, key: string): Option<Bucket> {
    if events == [] then None
    else
      var b, e := Kept(plans, events[..|events| - 1], key), events[|events| - 1];
      if e.Request? && e.key == key && plans(key).Valid() then Some(Spend(b, plans(key), e.time)) else b
  }

  /** How the limiter answers the `i`-th event, and how the one that never forgets does. */
  function Answer(plans: Plans, events: seq<Event>, i: nat): Decision
    requires i < |events| && events[i].Request?
  {
    Decide(Lookup(State(plans, events[..i]), events[i].key), plans(events[i].key), events[i].time)
  }

  function KeptAnswer(plans: Plans, events: seq<Event>, i: nat): Decision
    requires i < |events| && events[i].Request?
  {
    Decide(Kept(plans, events[..i], events[i].key), plans(events[i].key), events[i].time)
  }

  // ------------------------------------------------------------------- bucket arithmetic

  lemma GainBasics(rate: real, x: real, y: real)
    requires rate > 0.0 && x <= y
    ensures Gain(rate, x) <= Gain(rate, y)
    ensures Gain(rate, 0.0) == 0.0
  {
    assert 0.0 <= (y - x) * rate;
  }

  lemma GainSum(rate: real, x: real, y: real)
    ensures Gain(rate, x + y) == Gain(rate, x) + Gain(rate, y)
  {}

  /** Between empty and full, both clocks at the same past time. */
  predicate Sound(b: Bucket, plan: Plan, now: real) {
    0.0 <= b.tokens <= plan.burst as real && b.lastRefill == b.lastAccess <= now
  }

  lemma SpendSound(b: Option<Bucket>, plan: Plan, now: real)
    requires plan.Valid() && (b.Some? ==> Sound(b.value, plan, now))
    ensures Sound(Spend(b, plan, now), plan, now)
  {
    if b.Some? { GainBasics(plan.rate, 0.0, now - b.value.lastRefill); }
  }

  /** Every bucket of the unforgetting limiter stays within [0, burst]. */
  lemma {:induction false} KeptSound(plans: Plans, events: seq<Event>, key: string, now: real)
    requires Ordered(events) && (events != [] ==> events[|events| - 1].time <= now)
    ensures plans(key).Valid() ==> var b := Kept(plans, events, key); b.Some? ==> Sound(b.value, plans(key), now)
    ensures !plans(key).Valid() ==> Kept(plans, events, key).None?
  {
    if events != [] {
      var e := events[|events| - 1];
      KeptSound(plans, events[..|events| - 1], key, e.time);
      var b := Kept(plans, events[..|events| - 1], key);
      if plans(key).Valid() { SpendSound(b, plans(key), e.time); }
    }
  }

  /** Every bucket in the dictionary belongs to a valid plan and is sound. */
  ghost predicate AllSound(m: Buckets, plans: Plans, now: real) {
    forall key :: key in m ==> plans(key).Valid() && Sound(m[key], plans(key), now)
  }

  lemma ConsumedSound(m: Buckets, plans: Plans, key: string, now: real)
    requires AllSound(m, plans, now)
    ensures AllSound(Consumed(m, key, plans(key), now), plans, now)
  {
    if plans(key).Valid() { SpendSound(Lookup(m, key), plans(key), now); }
  }

  /** In every run, whatever is evicted, each bucket in the dictionary has between 0 and burst
      tokens and both its clocks at the same past time. */
  lemma {:induction false} StateSound(plans: Plans, events: seq<Event>, now: real)
    requires Ordered(events) && (events != [] ==> events[|events| - 1].time <= now)
    ensures AllSound(State(plans, events), plans, now)
  {
    if events != [] {
      var front, e := events[..|events| - 1], events[|events| - 1];
      StateSound(plans, front, e.time);
      if e.Request? { ConsumedSound(State(plans, front), plans, e.key, e.time); }
    }
  }

  // ------------------------------------------------------------ eviction is unobservable

  /** A bucket idle for `limit` has filled up, whatever it held. */
  predicate Refills(plan: Plan, limit: real) {
    plan.burst as real <= Gain(plan.rate, limit)
  }

  /** Every idle limit of the run is long enough for the plan. */
  predicate Patient(plan: Plan, events: seq<Event>) {
    && Refills(plan, DEFAULT_MAX_IDLE)
    && forall i :: 0 <= i < |events| && events[i].Sweep? ==> Refills(plan, IdleLimit(events[i].maxIdle))
  }

  predicate Full(b: Bucket, plan: Plan, now: real) {
    b.tokens + Gain(plan.rate, now - b.lastRefill) >= plan.burst as real
  }

  /** Same bucket, or forgotten when it was full. */
  predicate Mirrors(a: Option<Bucket>, b: Option<Bucket>, plan: Plan, now: real) {
    a == b || (a.None? && b.Some? && Full(b.value, plan, now))
  }

  lemma MirrorsLater(a: Option<Bucket>, b: Option<Bucket>, plan: Plan, now: real, later: real)
    requires plan.Valid() && Mirrors(a, b, plan, now) && now <= later
    ensures Mirrors(a, b, plan, later)
  {
    if b.Some? { GainBasics(plan.rate, now - b.value.lastRefill, later - b.value.lastRefill); }
  }

  lemma IdleIsFull(b: Bucket, plan: Plan, now: real, limit: real)
    requires plan.Valid() && Sound(b, plan, now) && Refills(plan, limit) && b.lastAccess < now - limit
    ensures Full(b, plan, now)
  {
    GainBasics(plan.rate, limit, now - b.lastRefill);
  }

  /** A forgotten full bucket and a remembered one answer alike and end alike. */
  lemma MirrorsAct(a: Option<Bucket>, b: Option<Bucket>, plan: Plan, now: real)
    requires plan.Valid() && Mirrors(a, b, plan, now)
    ensures Decide(a, plan, now) == Decide(b, plan, now) && Spend(a, plan, now) == Spend(b, plan, now)
  {}

  lemma EvictMirrors(m: Buckets, key: string, b: Option<Bucket>, plan: Plan, now: real, limit: real)
    requires plan.Valid() && Mirrors(Lookup(m, key), b, plan, now)
    requires b.Some? ==> Sound(b.value, plan, now)
    requires Refills(plan, limit)
    ensures Mirrors(Lookup(Evict(m, now - limit), key), b, plan, now)
  {
    if key in m && m[key].lastAccess < now - limit { IdleIsFull(b.value, plan, now, limit); }
  }

  lemma ConsumedMirrors(m: Buckets, other: string, otherPlan: Plan, key: string, b: Option<Bucket>, plan: Plan, now: real)
    requires plan.Valid() && Mirrors(Lookup(m, key), b, plan, now) && Refills(plan, DEFAULT_MAX_IDLE)
    requires b.Some? ==> Sound(b.value, plan, now)
    requires other == key ==> otherPlan == plan
    ensures Mirrors(Lookup(Consumed(m, other, otherPlan, now), key),
                    if other == key then Some(Spend(b, plan, now)) else b, plan, now)
  {
    if otherPlan.Valid() {
      var after := m[other := Spend(Lookup(m, other), otherPlan, now)];
      if other == key {
        MirrorsAct(Lookup(m, key), b, plan, now);
      } else {
        assert Lookup(after, key) == Lookup(m, key);
        EvictMirrors(after, key, b, plan, now, DEFAULT_MAX_IDLE);
      }
    }
  }

  /** In every reachable state the dictionary mirrors the unforgetting limiter. */
  lemma {:induction false} StateMirrors(plans: Plans, events: seq<Event>, key: string, now: real)
    requires Ordered(events) && (events != [] ==> events[|events| - 1].time <= now)
    requires plans(key).Valid() && Patient(plans(key), events)
    ensures Mirrors(Lookup(State(plans, events), key), Kept(plans, events, key), plans(key), now)
  {
    if events != [] {
      var front, e := events[..|events| - 1], events[|events| - 1];
      StateMirrors(plans, front, key, e.time);
      KeptSound(plans, front, key, e.time);
      var m, b, plan := State(plans, front), Kept(plans, front, key), plans(key);
      if e.Request? {
        ConsumedMirrors(m, e.key, plans(e.key), key, b, plan, e.time);
      } else {
        EvictMirrors(m, key, b, plan, e.time, IdleLimit(e.maxIdle));
      }
      MirrorsLater(Lookup(State(plans, events), key), Kept(plans, events, key), plan, e.time, now);
    }
  }

  lemma PatientPrefix(plan: Plan, events: seq<Event>, i: nat)
    requires i <= |events| && Patient(plan, events)
    ensures Patient(plan, events[..i])
  {
    forall k | 0 <= k < i && events[..i][k].Sweep? ensures Refills(plan, IdleLimit(events[..i][k].maxIdle)) {
      assert events[..i][k] == events[k];
    }
  }

  /** Every answer of every run equals that of a limiter that never forgets a bucket. */
  lemma EvictionUnobservable(plans: Plans, events: seq<Event>, i: nat)
    requires Ordered(events) && i < |events| && events[i].Request?
    requires plans(events[i].key).Valid() ==> Patient(plans(events[i].key), events)
    ensures Answer(plans, events, i) == KeptAnswer(plans, events, i)
  {
    var key := events[i].key;
    if plans(key).Valid() {
      PatientPrefix(plans(key), events, i);
      StateMirrors(plans, events[..i], key, events[i].time);
      MirrorsAct(Lookup(State(plans, events[..i]), key), Kept(plans, events[..i], key), plans(key), events[i].time);
    }
  }

  // ---------------------------------------------------------------------- retry after

  lemma TimesQuotient(x: real, rate: real)
    requires rate > 0.0
    ensures Gain(rate, x / rate) == x
  {}

  lemma GainStrict(rate: real, x: real, y: real)
    requires rate > 0.0 && x < y
    ensures Gain(rate, x) < Gain(rate, y)
  {
    assert 0.0 < (y - x) * rate;
  }

  /** A refused key is admitted after an idle wait exactly when the wait is at least the
      reported one. */
  lemma RetryAfterIsLeast(b: Bucket, plan: Plan, now: real, wait: real)
    requires plan.Valid() && Decide(Some(b), plan, now).Denied? && wait >= 0.0
    ensures var after := Spend(Some(b), plan, now);
            Decide(Some(after), plan, now + wait).Allowed? <==> wait >= Decide(Some(b), plan, now).retryAfter
    ensures Decide(Some(b), plan, now).retryAfter > 0.0
  {
    var level := Level(b, plan, now);
    var least := (1.0 - level) / plan.rate;
    TimesQuotient(1.0 - level, plan.rate);
    GainBasics(plan.rate, 0.0, 0.0);
    if least <= 0.0 { GainBasics(plan.rate, least, 0.0); }
    if wait < least { GainStrict(plan.rate, wait, least); } else { GainBasics(plan.rate, least, wait); }
  }

  // ---------------------------------------------------------------------- the bound

  predicate InWindow(e: Event, key: string, from: real, to: real) {
    e.Request? && e.key == key && from <= e.time <= to
  }

  /** Requests of `key` at a time in [from, to] that a limiter which never forgets admits. */
  function Admitted(plans: Plans, events: seq<Event>, key: string, from: real, to: real): nat {
    if events == [] then 0
    else
      var front, e := events[..|events| - 1], events[|events| - 1];
      Admitted(plans, front, key, from, to)
      + if InWindow(e, key, from, to) && Decide(Kept(plans, front, key), plans(key), e.time).Allowed? then 1 else 0
  }

  /** The same count for the limiter that forgets. */
  function Served(plans: Plans, events: seq<Event>, key: string, from: real, to: real): nat {
    if events == [] then 0
    else
      var front, e := events[..|events| - 1], events[|events| - 1];
      Served(plans, front, key, from, to)
      + if InWindow(e, key, from, to) && Decide(Lookup(State(plans, front), key), plans(key), e.time).Allowed? then 1 else 0
  }

  /** A key's level, full if it has no bucket. */
  function LevelOf(b: Option<Bucket>, plan: Plan, now: real): real {
    if b.None? then plan.burst as real else Level(b.value, plan, now)
  }

  lemma LevelGrows(b: Option<Bucket>, plan: Plan, now: real, later: real)
    requires plan.Valid() && now <= later
    ensures LevelOf(b, plan, later) <= LevelOf(b, plan, now) + Gain(plan.rate, later - now)
    ensures LevelOf(b, plan, later) <= plan.burst as real
  {
    GainBasics(plan.rate, 0.0, later - now);
    if b.Some? { GainSum(plan.rate, now - b.value.lastRefill, later - now); }
  }

  /** An admitted request takes one token, a refused one none. */
  lemma SpendLevel(b: Option<Bucket>, plan: Plan, now: real)
    requires plan.Valid() && (b.Some? ==> Sound(b.value, plan, now))
    ensures var after := Spend(b, plan, now);
            LevelOf(Some(after), plan, now)
            == LevelOf(b, plan, now) - if Decide(b, plan, now).Allowed? then 1.0 else 0.0
  {
    GainBasics(plan.rate, 0.0, 0.0);
  }

  /** Admissions so far plus what is left are paid for by the burst and the time in the window. */
  predicate Bounded(count: nat, b: Option<Bucket>, plan: Plan, from: real, to: real, now: real) {
    && (now < from ==> count == 0)
    && (from <= now <= to ==> count as real + LevelOf(b, plan, now) <= plan.burst as real + Gain(plan.rate, now - from))
    && (now > to ==> count as real <= plan.burst as real + Gain(plan.rate, to - from))
  }

  lemma LevelNonNegative(b: Option<Bucket>, plan: Plan, now: real)
    requires plan.Valid() && (b.Some? ==> Sound(b.value, plan, now))
    ensures LevelOf(b, plan, now) >= 0.0
  {
    if b.Some? { GainBasics(plan.rate, 0.0, now - b.value.lastRefill); }
  }

  lemma BoundedLater(count: nat, b: Option<Bucket>, plan: Plan, from: real, to: real, now: real, later: real)
    requires plan.Valid() && from <= to && now <= later && Bounded(count, b, plan, from, to, now)
    requires b.Some? ==> Sound(b.value, plan, now)
    ensures Bounded(count, b, plan, from, to, later)
  {
    LevelGrows(b, plan, now, later);
    LevelNonNegative(b, plan, now);
    GainBasics(plan.rate, 0.0, to - from);
    if from <= later { GainBasics(plan.rate, 0.0, later - from); }
    if from <= now <= to { GainBasics(plan.rate, now - from, to - from); }
    GainSum(plan.rate, now - from, later - now);
  }

  lemma BoundedSpend(count: nat, b: Option<Bucket>, plan: Plan, from: real, to: real, now: real)
    requires plan.Valid() && from <= to && Bounded(count, b, plan, from, to, now)
    requires b.Some? ==> Sound(b.value, plan, now)
    ensures Bounded(count + if from <= now <= to && Decide(b, plan, now).Allowed? then 1 else 0,
                    Some(Spend(b, plan, now)), plan, from, to, now)
  {
    SpendLevel(b, plan, now);
  }

  lemma {:induction false} AdmittedBounded(plans: Plans, events: seq<Event>, key: string, from: real, to: real, now: real)
    requires Ordered(events) && (events != [] ==> events[|events| - 1].time <= now)
    requires plans(key).Valid() && from <= to
    ensures Bounded(Admitted(plans, events, key, from, to), Kept(plans, events, key), plans(key), from, to, now)
  {
    var plan := plans(key);
    if events == [] {
      GainBasics(plan.rate, 0.0, to - from);
      if from <= now { GainBasics(plan.rate, 0.0, now - from); }
    } else {
      var front, e := events[..|events| - 1], events[|events| - 1];
      AdmittedBounded(plans, front, key, from, to, e.time);
      KeptSound(plans, front, key, e.time);
      if e.Request? && e.key == key {
        BoundedSpend(Admitted(plans, front, key, from, to), Kept(plans, front, key), plan, from, to, e.time);
      }
      KeptSound(plans, events, key, e.time);
      BoundedLater(Admitted(plans, events, key, from, to), Kept(plans, events, key), plan, from, to, e.time, now);
    }
  }

  /** Without eviction: at most burst + rate * (to - from) admissions in any window. */
  lemma AdmittedAtMost(plans: Plans, events: seq<Event>, key: string, from: real, to: real)
    requires Ordered(events) && plans(key).Valid() && from <= to
    ensures Admitted(plans, events, key, from, to) as real <= plans(key).burst as real + Gain(plans(key).rate, to - from)
  {
    var last := if events == [] then to else events[|events| - 1].time;
    var now := if last <= to then to + 1.0 else last;
    AdmittedBounded(plans, events, key, from, to, now);
  }

  lemma {:induction false} ServedIsAdmitted(plans: Plans, events: seq<Event>, key: string, from: real, to: real)
    requires Ordered(events) && plans(key).Valid() && Patient(plans(key), events)
    ensures Served(plans, events, key, from, to) == Admitted(plans, events, key, from, to)
  {
    if events != [] {
      var front, e := events[..|events| - 1], events[|events| - 1];
      PatientPrefix(plans(key), events, |front|);
      ServedIsAdmitted(plans, front, key, from, to);
      StateMirrors(plans, front, key, e.time);
      MirrorsAct(Lookup(State(plans, front), key), Kept(plans, front, key), plans(key), e.time);
    }
  }

  /** With eviction the bound holds if every idle limit lets the bucket refill. */
  lemma ServedAtMost(plans: Plans, events: seq<Event>, key: string, from: real, to: real)
    requires Ordered(events) && plans(key).Valid() && Patient(plans(key), events) && from <= to
    ensures Served(plans, events, key, from, to) as real <= plans(key).burst as real + Gain(plans(key).rate, to - from)
  {
    ServedIsAdmitted(plans, events, key, from, to);
    AdmittedAtMost(plans, events, key, from, to);
  }

  // ---------------------------------------------------- and fails for every shorter limit

  function Requests(key: string, time: real, n: nat): (r: seq<Event>)
    ensures |r| == n && forall i :: 0 <= i < n ==> r[i] == Request(key, time)
  {
    if n == 0 then [] else Requests(key, time, n - 1) + [Request(key, time)]
  }

  lemma RequestsNext(before: seq<Event>, key: string, time: real, n: nat)
    requires n > 0
    ensures var events := before + Requests(key, time, n);
            events[..|events| - 1] == before + Requests(key, time, n - 1) && events[|events| - 1] == Request(key, time)
  {}

  /** A bucket that gave `n` tokens of the burst at `time`. */
  function CountedDown(plan: Plan, time: real, n: nat): Option<Bucket> {
    if n == 0 then None else Some(Bucket((plan.burst - n) as real, time, time))
  }

  /** A fresh bucket counts down from the burst. */
  lemma SpendFresh(plan: Plan, time: real, n: nat)
    requires plan.Valid() && n < plan.burst
    ensures var b := CountedDown(plan, time, n);
            Decide(b, plan, time).Allowed? && Some(Spend(b, plan, time)) == CountedDown(plan, time, n + 1)
  {
    GainBasics(plan.rate, 0.0, 0.0);
  }

  /** Every bucket but the key's own was used at `time`. */
  ghost predicate OthersUsed(m: Buckets, key: string, time: real) {
    forall k :: k in m && k != key ==> m[k].lastAccess == time
  }

  /** A dictionary in which the key has spent `n` tokens at `time` and no other bucket is stale. */
  ghost predicate Spent(m: Buckets, key: string, plan: Plan, time: real, n: nat) {
    Lookup(m, key) == CountedDown(plan, time, n) && OthersUsed(m, key, time)
  }

  lemma ConsumedSpent(m: Buckets, key: string, plan: Plan, time: real, n: nat)
    requires plan.Valid() && n < plan.burst && Spent(m, key, plan, time, n)
    ensures Spent(Consumed(m, key, plan, time), key, plan, time, n + 1)
  {
    SpendFresh(plan, time, n);
  }

  /** One more request of the key at the same time, while there are tokens left. */
  lemma NextServed(plans: Plans, front: seq<Event>, events: seq<Event>, key: string, time: real, n: nat, from: real, to: real)
    requires plans(key).Valid() && n < plans(key).burst && from <= time <= to
    requires Spent(State(plans, front), key, plans(key), time, n)
    requires events != [] && events[..|events| - 1] == front && events[|events| - 1] == Request(key, time)
    ensures Spent(State(plans, events), key, plans(key), time, n + 1)
    ensures Served(plans, events, key, from, to) == Served(plans, front, key, from, to) + 1
  {
    SpendFresh(plans(key), time, n);
    ConsumedSpent(State(plans, front), key, plans(key), time, n);
  }

  /** From a dictionary without the key, a whole burst is served at once. */
  lemma {:induction false} BurstServed(plans: Plans, before: seq<Event>, key: string, time: real, n: nat, from: real, to: real)
    requires plans(key).Valid() && Spent(State(plans, before), key, plans(key), time, 0)
    requires n <= plans(key).burst && from <= time <= to
    ensures var events := before + Requests(key, time, n);
            && Spent(State(plans, events), key, plans(key), time, n)
            && Served(plans, events, key, from, to) == Served(plans, before, key, from, to) + n
  {
    if n == 0 {
      assert before + Requests(key, time, 0) == before;
    } else {
      BurstServed(plans, before, key, time, n - 1, from, to);
      RequestsNext(before, key, time, n);
      NextServed(plans, before + Requests(key, time, n - 1), before + Requests(key, time, n), key, time, n - 1, from, to);
    }
  }

  /** A time after the idle limit at which a drained bucket is not yet full. */
  function TooSoon(plan: Plan, limit: real): real
    requires plan.Valid()
  {
    if limit < 0.0 then 0.0 else (limit + plan.burst as real / plan.rate) / 2.0
  }

  lemma TooSoonFits(plan: Plan, limit: real)
    requires plan.Valid() && !Refills(plan, limit)
    ensures limit < TooSoon(plan, limit) && TooSoon(plan, limit) >= 0.0 && Gain(plan.rate, TooSoon(plan, limit)) < plan.burst as real
  {
    var full := plan.burst as real / plan.rate;
    TimesQuotient(plan.burst as real, plan.rate);
    GainBasics(plan.rate, 0.0, 0.0);
    if full <= limit { GainBasics(plan.rate, full, limit); }
    if limit >= 0.0 { GainStrict(plan.rate, (limit + full) / 2.0, full); }
  }

  predicate SweepsWith(events: seq<Event>, maxIdle: Option<real>) {
    forall k :: 0 <= k < |events| && events[k].Sweep? ==> events[k].maxIdle == maxIdle
  }

  /** Events that follow a spent burst and make the limiter forget its bucket. */
  ghost predicate Forgets(plans: Plans, key: string, time: real, lull: seq<Event>)
    requires plans(key).Valid()
  {
    var spent := Requests(key, 0.0, plans(key).burst);
    && Spent(State(plans, spent + lull), key, plans(key), time, 0)
    && Served(plans, spent + lull, key, 0.0, time) == Served(plans, spent, key, 0.0, time)
  }

  /** Spend the burst, have it forgotten, spend it again. */
  function TwoBursts(key: string, burst: nat, lull: seq<Event>, time: real): seq<Event> {
    Requests(key, 0.0, burst) + lull + Requests(key, time, burst)
  }

  lemma TwoBurstsOrdered(key: string, burst: nat, lull: seq<Event>, time: real, maxIdle: Option<real>)
    requires time >= 0.0 && SweepsWith(lull, maxIdle) && forall k :: 0 <= k < |lull| ==> lull[k].time == time
    ensures Ordered(TwoBursts(key, burst, lull, time)) && SweepsWith(TwoBursts(key, burst, lull, time), maxIdle)
  {
    var events := TwoBursts(key, burst, lull, time);
    forall k | 0 <= k < |events| ensures events[k].time == if k < burst then 0.0 else time {}
    forall k | 0 <= k < |events| && events[k].Sweep? ensures events[k].maxIdle == maxIdle {
      assert events[k] == lull[k - burst];
    }
  }

  lemma TwoBurstsServed(plans: Plans, key: string, lull: seq<Event>, time: real)
    requires plans(key).Valid() && time >= 0.0 && Forgets(plans, key, time, lull)
    ensures Served(plans, TwoBursts(key, plans(key).burst, lull, time), key, 0.0, time) == 2 * plans(key).burst
  {
    var burst := plans(key).burst;
    FirstBurst(plans, key, time);
    BurstServed(plans, Requests(key, 0.0, burst) + lull, key, time, burst, 0.0, time);
  }

  /** Twice the burst, in less time than it takes to earn one, breaks the bound. */
  ghost predicate Exceeds(plans: Plans, events: seq<Event>, key: string, to: real) {
    to >= 0.0 && Served(plans, events, key, 0.0, to) as real > plans(key).burst as real + Gain(plans(key).rate, to - 0.0)
  }

  lemma SweepForgets(plans: Plans, key: string, maxIdle: Option<real>, time: real)
    requires plans(key).Valid() && time > IdleLimit(maxIdle) && time >= 0.0
    ensures Forgets(plans, key, time, [Sweep(maxIdle, time)])
  {
    FirstBurst(plans, key, time);
    SweepEvicts(plans, Requests(key, 0.0, plans(key).burst), key, maxIdle, time);
  }

  /** After the first burst the only bucket is the key's, last used at 0. */
  lemma FirstBurst(plans: Plans, key: string, time: real)
    requires plans(key).Valid() && time >= 0.0
    ensures var m := State(plans, Requests(key, 0.0, plans(key).burst));
            m.Keys == {key} && m[key].lastAccess == 0.0
    ensures Served(plans, Requests(key, 0.0, plans(key).burst), key, 0.0, time) == plans(key).burst
  {
    var spent := Requests(key, 0.0, plans(key).burst);
    BurstServed(plans, [], key, 0.0, plans(key).burst, 0.0, time);
    assert [] + spent == spent;
    AloneAfter(plans, key, 0.0, plans(key).burst);
  }

  lemma SweepEvicts(plans: Plans, front: seq<Event>, key: string, maxIdle: Option<real>, time: real)
    requires State(plans, front).Keys == {key} && State(plans, front)[key].lastAccess < time - IdleLimit(maxIdle)
    ensures State(plans, front + [Sweep(maxIdle, time)]) == map[]
    ensures Served(plans, front + [Sweep(maxIdle, time)], key, 0.0, time) == Served(plans, front, key, 0.0, time)
  {
    var events := front + [Sweep(maxIdle, time)];
    assert events[..|events| - 1] == front;
  }

  lemma {:induction false} AloneAfter(plans: Plans, key: string, time: real, n: nat)
    ensures State(plans, Requests(key, time, n)).Keys <= {key}
  {
    if n > 0 {
      var events := Requests(key, time, n);
      AloneAfter(plans, key, time, n - 1);
      assert events[..n - 1] == Requests(key, time, n - 1);
    }
  }

  /** If a drained bucket cannot refill within an idle limit, some run with that limit serves
      more than the bound. */
  lemma BoundFails(plans: Plans, key: string, maxIdle: Option<real>) returns (events: seq<Event>, to: real)
    requires plans(key).Valid() && !Refills(plans(key), IdleLimit(maxIdle))
    ensures Ordered(events) && SweepsWith(events, maxIdle) && Exceeds(plans, events, key, to)
  {
    to := TooSoon(plans(key), IdleLimit(maxIdle));
    TooSoonFits(plans(key), IdleLimit(maxIdle));
    var lull := [Sweep(maxIdle, to)];
    SweepForgets(plans, key, maxIdle, to);
    events := TwoBursts(key, plans(key).burst, lull, to);
    TwoBurstsOrdered(key, plans(key).burst, lull, to, maxIdle);
    TwoBurstsServed(plans, key, lull, to);
  }

  // ------------------------------------------------------------- eviction without a sweep

  /** Names longer than the key's, hence other keys, and all different. */
  function Name(key: string, i: nat): (s: string)
    ensures |s| == |key| + i + 1
  {
    key + seq(i + 1, _ => 'x')
  }

  function Crowd(key: string, time: real, n: nat): (r: seq<Event>)
    ensures |r| == n && forall i :: 0 <= i < n ==> r[i] == Request(Name(key, i), time)
  {
    if n == 0 then [] else Crowd(key, time, n - 1) + [Request(Name(key, n - 1), time)]
  }

  /** `n` other keys have come: all kept below the maximum, the idle key evicted by the last. */
  ghost predicate Crowded(m: Buckets, key: string, time: real, n: nat) {
    && OthersUsed(m, key, time) && (forall k :: k in m ==> |k| <= |key| + n)
    && (n < DEFAULT_MAX_BUCKETS ==> |m| == n + 1 && key in m && m[key].lastAccess == 0.0)
    && (n == DEFAULT_MAX_BUCKETS ==> key !in m)
  }

  lemma CrowdedNext(m: Buckets, key: string, plan: Plan, time: real, n: nat)
    requires plan.Valid() && Crowded(m, key, time, n) && n < DEFAULT_MAX_BUCKETS && time > DEFAULT_MAX_IDLE
    ensures Crowded(Consumed(m, Name(key, n), plan, time), key, time, n + 1)
  {
    var name := Name(key, n);
    var after := m[name := Spend(None, plan, time)];
    assert name !in m;
    assert after.Keys == m.Keys + {name};
  }

  lemma {:induction false} CrowdState(plans: Plans, before: seq<Event>, key: string, time: real, n: nat, to: real)
    requires (forall k :: plans(k).Valid()) && time > DEFAULT_MAX_IDLE && n <= DEFAULT_MAX_BUCKETS
    requires Crowded(State(plans, before), key, time, 0)
    ensures Crowded(State(plans, before + Crowd(key, time, n)), key, time, n)
    ensures Served(plans, before + Crowd(key, time, n), key, 0.0, to) == Served(plans, before, key, 0.0, to)
  {
    var events := before + Crowd(key, time, n);
    if n == 0 {
      assert events == before;
    } else {
      CrowdState(plans, before, key, time, n - 1, to);
      var front := before + Crowd(key, time, n - 1);
      assert events[..|events| - 1] == front && events[|events| - 1] == Request(Name(key, n - 1), time);
      CrowdNext(plans, front, events, key, time, n - 1, to);
    }
  }

  lemma CrowdNext(plans: Plans, front: seq<Event>, events: seq<Event>, key: string, time: real, n: nat, to: real)
    requires plans(Name(key, n)).Valid() && time > DEFAULT_MAX_IDLE && n < DEFAULT_MAX_BUCKETS
    requires Crowded(State(plans, front), key, time, n)
    requires events != [] && events[..|events| - 1] == front && events[|events| - 1] == Request(Name(key, n), time)
    ensures Crowded(State(plans, events), key, time, n + 1)
    ensures Served(plans, events, key, 0.0, to) == Served(plans, front, key, 0.0, to)
  {
    CrowdedNext(State(plans, front), key, plans(Name(key, n)), time, n);
  }

  lemma CrowdForgets(plans: Plans, key: string, time: real)
    requires (forall k :: plans(k).Valid()) && time > DEFAULT_MAX_IDLE
    ensures Forgets(plans, key, time, Crowd(key, time, DEFAULT_MAX_BUCKETS))
  {
    FirstBurst(plans, key, time);
    CrowdState(plans, Requests(key, 0.0, plans(key).burst), key, time, DEFAULT_MAX_BUCKETS, time);
  }

  /** The same through the eviction of idle buckets when there are too many: it needs no sweep. */
  lemma BoundFailsCrowded(plans: Plans, key: string, maxIdle: Option<real>) returns (events: seq<Event>, to: real)
    requires (forall k :: plans(k).Valid()) && !Refills(plans(key), DEFAULT_MAX_IDLE)
    ensures Ordered(events) && SweepsWith(events, maxIdle) && Exceeds(plans, events, key, to)
  {
    to := TooSoon(plans(key), DEFAULT_MAX_IDLE);
    TooSoonFits(plans(key), DEFAULT_MAX_IDLE);
    var lull := Crowd(key, to, DEFAULT_MAX_BUCKETS);
    CrowdForgets(plans, key, to);
    events := TwoBursts(key, plans(key).burst, lull, to);
    TwoBurstsOrdered(key, plans(key).burst, lull, to, maxIdle);
    TwoBurstsServed(plans, key, lull, to);
  }

  // -------------------------------------------------------------------- exactly when

  /** Every run whose sweeps use this limit keeps to the bound, in every window. */
  ghost predicate BoundHolds(plans: Plans, key: string, maxIdle: Option<real>) {
    forall events: seq<Event>, from: real, to: real :: Ordered(events) && SweepsWith(events, maxIdle) && from <= to ==>
      Served(plans, events, key, from, to) as real <= plans(key).burst as real + Gain(plans(key).rate, to - from)
  }

  /** Every answer to the key, in every run whose sweeps use this limit, is as if nothing were forgotten. */
  ghost predicate AnswersAlike(plans: Plans, key: string, maxIdle: Option<real>) {
    forall events: seq<Event>, i: nat :: Ordered(events) && SweepsWith(events, maxIdle) && i < |events| && events[i].Request? && events[i].key == key ==>
      Answer(plans, events, i) == KeptAnswer(plans, events, i)
  }

  /** A bucket refills within the limit of the sweeps and within that of the automatic eviction. */
  predicate Patience(plan: Plan, maxIdle: Option<real>) {
    Refills(plan, IdleLimit(maxIdle)) && Refills(plan, DEFAULT_MAX_IDLE)
  }

  /** Whenever a bucket may be forgotten too early, some run breaks the bound. */
  lemma SomeRunExceeds(plans: Plans, key: string, maxIdle: Option<real>) returns (events: seq<Event>, to: real)
    requires (forall k :: plans(k).Valid()) && !Patience(plans(key), maxIdle)
    ensures Ordered(events) && SweepsWith(events, maxIdle) && Exceeds(plans, events, key, to)
  {
    if !Refills(plans(key), IdleLimit(maxIdle)) {
      events, to := BoundFails(plans, key, maxIdle);
    } else {
      events, to := BoundFailsCrowded(plans, key, maxIdle);
    }
  }

  /** The bound holds of every run exactly if both idle limits let a bucket refill. */
  lemma BoundHoldsIff(plans: Plans, key: string, maxIdle: Option<real>)
    requires forall k :: plans(k).Valid()
    ensures BoundHolds(plans, key, maxIdle) <==> Patience(plans(key), maxIdle)
  {
    if Patience(plans(key), maxIdle) {
      forall events: seq<Event>, from: real, to: real | Ordered(events) && SweepsWith(events, maxIdle) && from <= to
        ensures Served(plans, events, key, from, to) as real <= plans(key).burst as real + Gain(plans(key).rate, to - from)
      {
        ServedAtMost(plans, events, key, from, to);
      }
    } else {
      var events, to := SomeRunExceeds(plans, key, maxIdle);
    }
  }

  /** Counts that differ come from an answer that differs. */
  lemma {:induction false} DifferenceAt(plans: Plans, events: seq<Event>, key: string, from: real, to: real) returns (i: nat)
    requires Served(plans, events, key, from, to) != Admitted(plans, events, key, from, to)
    ensures i < |events| && events[i].Request? && events[i].key == key
    ensures Answer(plans, events, i) != KeptAnswer(plans, events, i)
  {
    var front := events[..|events| - 1];
    if Served(plans, front, key, from, to) != Admitted(plans, front, key, from, to) {
      i := DifferenceAt(plans, front, key, from, to);
      assert front[..i] == events[..i];
    } else {
      i := |front|;
    }
  }

  /** A run that breaks the bound has an answer the limiter that never forgets would not give. */
  lemma ExceedsDiffers(plans: Plans, events: seq<Event>, key: string, to: real) returns (i: nat)
    requires plans(key).Valid() && Ordered(events) && Exceeds(plans, events, key, to)
    ensures i < |events| && events[i].Request? && events[i].key == key
    ensures Answer(plans, events, i) != KeptAnswer(plans, events, i)
  {
    AdmittedAtMost(plans, events, key, 0.0, to);
    i := DifferenceAt(plans, events, key, 0.0, to);
  }

  /** If a drained bucket cannot refill within an idle limit, some run with that limit answers
      differently from the limiter that never forgets. */
  lemma EvictionObservable(plans: Plans, key: string, maxIdle: Option<real>) returns (events: seq<Event>, i: nat)
    requires plans(key).Valid() && !Refills(plans(key), IdleLimit(maxIdle))
    ensures Ordered(events) && SweepsWith(events, maxIdle) && i < |events| && events[i].Request? && events[i].key == key
    ensures Answer(plans, events, i) != KeptAnswer(plans, events, i)
  {
    var to;
    events, to := BoundFails(plans, key, maxIdle);
    i := ExceedsDiffers(plans, events, key, to);
  }

  /** Forgetting goes unnoticed in every run exactly if both idle limits let a bucket refill. */
  lemma AnswersAlikeIff(plans: Plans, key: string, maxIdle: Option<real>)
    requires forall k :: plans(k).Valid()
    ensures AnswersAlike(plans, key, maxIdle) <==> Patience(plans(key), maxIdle)
  {
    if Patience(plans(key), maxIdle) {
      forall events: seq<Event>, i: nat | Ordered(events) && SweepsWith(events, maxIdle) && i < |events| && events[i].Request? && events[i].key == key
        ensures Answer(plans, events, i) == KeptAnswer(plans, events, i)
      {
        EvictionUnobservable(plans, events, i);
      }
    } else {
      var events, to := SomeRunExceeds(plans, key, maxIdle);
      var i := ExceedsDiffers(plans, events, key, to);
    }
  }
}
