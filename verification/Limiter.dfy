/**
 * The token-bucket rate limiter (server/internal/api/limits.go), in exact arithmetic: tokens, rates
 * and moments are reals, moments in seconds.  Main results: `WindowBound`, `SweepsAreInvisible`.
 */
module Limiter {
  datatype Bucket = Bucket(tokens: real, last: real)

  datatype Limits = Limits(rate: real, burst: real, buckets: map<string, Bucket>)

  /** The idle time of the reaper, and what the server configures, per minute and at once. */
  const BUCKET_IDLE := 600.0
  const SESSIONS := New(30.0, 30.0)
  const JOINS := New(10.0, 10.0)
  const COMMANDS := New(600.0, 60.0)
  const PROFILES := New(10.0, 5.0)
  const ENTITLEMENTS := New(10.0, 10.0)
  const ENTITLEMENTS_PER_IP := New(120.0, 120.0)

  /** The tokens that flow in over a time. */
  function Inflow(elapsed: real, rate: real): real { elapsed * rate }

  function Min(a: real, b: real): real { if a < b then a else b }

  /** `newLimiter` */
  function New(perMinute: real, burst: real): Limits { Limits(perMinute / 60.0, burst, map[]) }

  // ----- the limiter as values -----

  function BucketOf(l: Limits, key: string, now: real): Bucket {
    if key in l.buckets then l.buckets[key] else Bucket(l.burst, now)
  }

  function Refilled(l: Limits, b: Bucket, now: real): Bucket {
    if now > b.last then Bucket(Min(l.burst, b.tokens + Inflow(now - b.last, l.rate)), now) else b
  }

  /** `allow` */
  function Allow(l: Limits, key: string, now: real): (Limits, bool) {
    if l.rate <= 0.0 then (l, true)
    else
      var b := Refilled(l, BucketOf(l, key, now), now);
      if b.tokens < 1.0 then (l.(buckets := l.buckets[key := b]), false)
      else (l.(buckets := l.buckets[key := b.(tokens := b.tokens - 1.0)]), true)
  }

  /** `sweep` */
  function Sweep(l: Limits, now: real, idle: real): Limits {
    l.(buckets := map key | key in l.buckets && now - l.buckets[key].last <= idle :: l.buckets[key])
  }

  datatype Event = Call(key: string, at: real) | Sweeping(at: real, idle: real)

  /** What a sequence of calls and sweeps leaves, and the answers to the calls. */
  ghost function Run(l: Limits, events: seq<Event>): (Limits, seq<bool>)
    decreases |events|
  {
    if events == [] then (l, [])
    else match events[0]
      case Sweeping(at, idle) => Run(Sweep(l, at, idle), events[1..])
      case Call(key, at) =>
        var first := Allow(l, key, at);
        var rest := Run(first.0, events[1..]);
        (rest.0, [first.1] + rest.1)
  }

  ghost predicate InOrder(from: real, events: seq<Event>, to: real)
    decreases |events|
  {
    if events == [] then from <= to else from <= events[0].at && InOrder(events[0].at, events[1..], to)
  }

  /** Every sweep waits long enough for an idle bucket to have filled up. */
  ghost predicate PatientSweeps(l: Limits, events: seq<Event>) {
    forall e <- events :: e.Sweeping? ==> l.burst <= Inflow(e.idle, l.rate)
  }

  /** The calls of one key that were allowed. */
  ghost function Allowed(l: Limits, events: seq<Event>, key: string): nat
    decreases |events|
  {
    if events == [] then 0
    else match events[0]
      case Sweeping(at, idle) => Allowed(Sweep(l, at, idle), events[1..], key)
      case Call(k, at) =>
        (if k == key && Allow(l, k, at).1 then 1 else 0) + Allowed(Allow(l, k, at).0, events[1..], key)
  }

  // ----- what is there to take -----

  /** A bucket holds between nothing and the burst, and was last touched in the past. */
  ghost predicate Sound(l: Limits, now: real) {
    && 0.0 < l.rate && 0.0 <= l.burst
    && forall key <- l.buckets :: 0.0 <= l.buckets[key].tokens <= l.burst && l.buckets[key].last <= now
  }

  /** The tokens a key could draw on at `now`; a key without a bucket has them all. */
  ghost function Available(l: Limits, key: string, now: real): real {
    if key in l.buckets then Min(l.burst, l.buckets[key].tokens + Inflow(now - l.buckets[key].last, l.rate))
      else l.burst
  }

  lemma InflowGrows(a: real, b: real, rate: real)
    requires a <= b && 0.0 <= rate
    ensures Inflow(a, rate) <= Inflow(b, rate) && Inflow(0.0, rate) == 0.0
  {
  }

  lemma InflowAdds(a: real, b: real, rate: real)
    ensures Inflow(a + b, rate) == Inflow(a, rate) + Inflow(b, rate)
  {
  }

  /** Waiting adds at most the rate, up to the burst. */
  lemma Waiting(l: Limits, key: string, now: real, later: real)
    requires Sound(l, now) && now <= later
    ensures Available(l, key, later) == Min(l.burst, Available(l, key, now) + Inflow(later - now, l.rate))
    ensures 0.0 <= Available(l, key, now) <= Available(l, key, later) <= l.burst
  {
    hide Inflow;
    InflowGrows(0.0, later - now, l.rate);
    if key in l.buckets {
      var last := l.buckets[key].last;
      InflowGrows(0.0, now - last, l.rate);
      InflowAdds(later - now, now - last, l.rate);
      assert later - now + (now - last) == later - last;
    }
  }

  /** A call is allowed exactly when a whole token is there, and takes just that one, from its own key. */
  lemma AllowTakesOne(l: Limits, key: string, now: real)
    requires Sound(l, now)
    ensures var (m, ok) := Allow(l, key, now);
      && Sound(m, now) && m.rate == l.rate && m.burst == l.burst
      && (ok <==> 1.0 <= Available(l, key, now))
      && Available(m, key, now) == Available(l, key, now) - (if ok then 1.0 else 0.0)
      && forall k, t :: k != key ==> Available(m, k, t) == Available(l, k, t)
  {
    hide Inflow;
    InflowGrows(0.0, 0.0, l.rate);
    if key in l.buckets { InflowGrows(0.0, now - l.buckets[key].last, l.rate); }
  }

  /** A patient sweep forgets only full buckets. */
  lemma SweepKeeps(l: Limits, now: real, idle: real, key: string, t: real)
    requires Sound(l, now) && l.burst <= Inflow(idle, l.rate) && now <= t
    ensures Sound(Sweep(l, now, idle), now)
    ensures Available(Sweep(l, now, idle), key, t) == Available(l, key, t)
  {
    hide Inflow;
    if key in l.buckets && now - l.buckets[key].last > idle {
      InflowGrows(idle, t - l.buckets[key].last, l.rate);
    }
  }

  lemma SoundLater(l: Limits, now: real, t: real)
    requires Sound(l, now) && now <= t
    ensures Sound(l, t)
  {
  }

  // ----- main results -----

  /** From any moment on, a key is allowed no more than what it has and what flows in. */
  lemma {:induction false} AllowedBound(l: Limits, events: seq<Event>, key: string, a: real, b: real)
    requires Sound(l, a) && InOrder(a, events, b) && PatientSweeps(l, events)
    ensures Allowed(l, events, key) as real <= Available(l, key, a) + Inflow(b - a, l.rate)
    decreases |events|
  {
    hide Allow, Sweep, Available, Sound, Inflow, PatientSweeps;
    SoundHasRate(l, a);
    if events == [] {
      Waiting(l, key, a, a);
      InflowGrows(0.0, b - a, l.rate);
    } else {
      var at := events[0].at;
      LastIsLater(events, a, b);
      Waiting(l, key, a, at);
      SoundLater(l, a, at);
      InflowAdds(b - at, at - a, l.rate);
      assert b - at + (at - a) == b - a;
      FirstIsPatient(l, events);
      match events[0]
      case Sweeping(_, idle) =>
        SweepKeeps(l, at, idle, key, at);
        SweepSameLimits(l, at, idle);
        AllowedBound(Sweep(l, at, idle), events[1..], key, at, b);
      case Call(k, _) =>
        AllowTakesOne(l, k, at);
        AllowedBound(Allow(l, k, at).0, events[1..], key, at, b);
    }
  }

  lemma FirstIsPatient(l: Limits, events: seq<Event>)
    requires PatientSweeps(l, events) && events != []
    ensures events[0].Sweeping? ==> l.burst <= Inflow(events[0].idle, l.rate)
    ensures forall m: Limits :: m.rate == l.rate && m.burst == l.burst ==> PatientSweeps(m, events[1..])
  {
  }

  lemma SoundHasRate(l: Limits, now: real)
    requires Sound(l, now)
    ensures 0.0 < l.rate && 0.0 <= l.burst
  {
  }

  lemma SweepSameLimits(l: Limits, now: real, idle: real)
    ensures Sweep(l, now, idle).rate == l.rate && Sweep(l, now, idle).burst == l.burst
  {
  }

  lemma {:induction false} LastIsLater(events: seq<Event>, from: real, to: real)
    requires InOrder(from, events, to)
    ensures from <= to && forall e <- events :: from <= e.at <= to
    decreases |events|
  {
    if events != [] { LastIsLater(events[1..], events[0].at, to); }
  }

  lemma {:induction false} RunSound(l: Limits, events: seq<Event>, a: real, b: real)
    requires Sound(l, a) && InOrder(a, events, b) && PatientSweeps(l, events)
    ensures var r := Run(l, events).0; Sound(r, b) && r.rate == l.rate && r.burst == l.burst
    decreases |events|
  {
    hide Allow, Sweep, Sound, PatientSweeps, Inflow;
    if events == [] {
      SoundLater(l, a, b);
    } else {
      FirstIsPatient(l, events);
      var at := events[0].at;
      SoundLater(l, a, at);
      match events[0]
      case Sweeping(_, idle) =>
        SweepKeeps(l, at, idle, "", at);
        SweepSameLimits(l, at, idle);
        RunSound(Sweep(l, at, idle), events[1..], at, b);
      case Call(k, _) =>
        AllowTakesOne(l, k, at);
        RunSound(Allow(l, k, at).0, events[1..], at, b);
    }
  }

  /**
   * Whatever came before, between moments `a` and `b` no key is allowed more than the burst plus
   * what the rate brings in that time.
   */
  lemma WindowBound(perMinute: real, burst: real, before: seq<Event>, window: seq<Event>, key: string, start: real,
    a: real, b: real)
    requires 0.0 < perMinute && 0.0 <= burst
    requires InOrder(start, before, a) && InOrder(a, window, b)
    requires PatientSweeps(New(perMinute, burst), before) && PatientSweeps(New(perMinute, burst), window)
    ensures var l := New(perMinute, burst);
      Allowed(Run(l, before).0, window, key) as real <= burst + Inflow(b - a, l.rate)
  {
    hide Allow, Sweep, Inflow, PatientSweeps;
    var l := New(perMinute, burst);
    NewSound(perMinute, burst, start);
    RunSound(l, before, start, a);
    var m := Run(l, before).0;
    PatientAlike(l, m, window);
    AllowedBound(m, window, key, a, b);
    LastIsLater(window, a, b);
    Waiting(m, key, a, a);
  }

  /** In particular a limiter of so many a minute allows no key more than those and the burst in any minute. */
  lemma MinuteBound(perMinute: real, burst: real, before: seq<Event>, window: seq<Event>, key: string, start: real,
    a: real)
    requires 0.0 < perMinute && 0.0 <= burst
    requires InOrder(start, before, a) && InOrder(a, window, a + 60.0)
    requires PatientSweeps(New(perMinute, burst), before) && PatientSweeps(New(perMinute, burst), window)
    ensures Allowed(Run(New(perMinute, burst), before).0, window, key) as real <= burst + perMinute
  {
    hide Allowed, Run, InOrder, PatientSweeps;
    WindowBound(perMinute, burst, before, window, key, start, a, a + 60.0);
  }

  /** ... and allows everybody who has waited their share of a minute since their last call. */
  lemma PatienceIsRewarded(perMinute: real, burst: real, events: seq<Event>, key: string, start: real, last: real,
    now: real)
    requires 0.0 < perMinute && 1.0 <= burst && InOrder(start, events, last)
    requires last + 60.0 / perMinute <= now && PatientSweeps(New(perMinute, burst), events)
    ensures Allow(Run(New(perMinute, burst), events).0, key, now).1
  {
    hide Run, InOrder, Allow;
    var l := New(perMinute, burst);
    NewSound(perMinute, burst, start);
    RunSound(l, events, start, last);
    var m := Run(l, events).0;
    SoundLater(m, last, now);
    AllowTakesOne(m, key, now);
    if key in m.buckets {
      InflowGrows(60.0 / perMinute, now - m.buckets[key].last, m.rate);
      assert Inflow(60.0 / perMinute, m.rate) == 1.0;
    }
  }

  lemma NewSound(perMinute: real, burst: real, now: real)
    requires 0.0 < perMinute && 0.0 <= burst
    ensures Sound(New(perMinute, burst), now)
  {
  }

  lemma PatientAlike(l: Limits, m: Limits, events: seq<Event>)
    requires PatientSweeps(l, events) && l.rate == m.rate && l.burst == m.burst
    ensures PatientSweeps(m, events)
  {
  }

  /** Two limiters nobody can tell apart from `now` on. */
  ghost predicate Alike(l: Limits, m: Limits, now: real) {
    l.rate == m.rate && l.burst == m.burst && forall key :: Available(l, key, now) == Available(m, key, now)
  }

  ghost function Calls(events: seq<Event>): seq<Event> {
    if events == [] then []
    else (if events[0].Call? then [events[0]] else []) + Calls(events[1..])
  }

  lemma AlikeLater(l: Limits, m: Limits, now: real, t: real)
    requires Sound(l, now) && Sound(m, now) && Alike(l, m, now) && now <= t
    ensures Alike(l, m, t)
  {
    hide Available, Sound;
    forall key ensures Available(l, key, t) == Available(m, key, t) {
      Waiting(l, key, now, t);
      Waiting(m, key, now, t);
    }
  }

  lemma AllowAlike(l: Limits, m: Limits, key: string, now: real)
    requires Sound(l, now) && Sound(m, now) && Alike(l, m, now)
    ensures Allow(l, key, now).1 == Allow(m, key, now).1
    ensures Alike(Allow(l, key, now).0, Allow(m, key, now).0, now)
  {
    hide Available, Sound, Allow;
    AllowTakesOne(l, key, now);
    AllowTakesOne(m, key, now);
    forall k ensures Available(Allow(l, key, now).0, k, now) == Available(Allow(m, key, now).0, k, now) {
    }
  }

  lemma SweepAlike(l: Limits, m: Limits, now: real, idle: real)
    requires Sound(l, now) && Alike(l, m, now) && l.burst <= Inflow(idle, l.rate)
    ensures Sound(Sweep(l, now, idle), now) && Alike(Sweep(l, now, idle), m, now)
  {
    hide Available, Sound, Sweep;
    SweepSameLimits(l, now, idle);
    SweepKeeps(l, now, idle, "", now);
    forall key ensures Available(Sweep(l, now, idle), key, now) == Available(m, key, now) {
      SweepKeeps(l, now, idle, key, now);
    }
  }

  lemma {:induction false} RunAlike(l: Limits, m: Limits, events: seq<Event>, a: real, b: real)
    requires Sound(l, a) && Sound(m, a) && Alike(l, m, a) && InOrder(a, events, b) && PatientSweeps(l, events)
    ensures Run(l, events).1 == Run(m, Calls(events)).1
    decreases |events|
  {
    hide Sound, Sweep, Allow, Alike, PatientSweeps, Inflow;
    if events != [] {
      FirstIsPatient(l, events);
      var at := events[0].at;
      AlikeLater(l, m, a, at);
      SoundLater(l, a, at);
      SoundLater(m, a, at);
      match events[0]
      case Sweeping(_, idle) =>
        SweepAlike(l, m, at, idle);
        SweepSameLimits(l, at, idle);
        assert Calls(events) == Calls(events[1..]);
        RunAlike(Sweep(l, at, idle), m, events[1..], at, b);
      case Call(k, _) =>
        AllowAlike(l, m, k, at);
        AllowTakesOne(l, k, at);
        AllowTakesOne(m, k, at);
        RunAlike(Allow(l, k, at).0, Allow(m, k, at).0, events[1..], at, b);
        assert Calls(events)[0] == events[0] && Calls(events)[1..] == Calls(events[1..]);
    }
  }

  /** Patient sweeps, wherever they fall, change no answer. */
  lemma SweepsAreInvisible(l: Limits, events: seq<Event>, a: real, b: real)
    requires Sound(l, a) && InOrder(a, events, b) && PatientSweeps(l, events)
    ensures Run(l, events).1 == Run(l, Calls(events)).1
  {
    RunAlike(l, l, events, a, b);
  }

  /** The server's own limiters and idle time are such. */
  lemma ServerSweepsArePatient(l: Limits)
    requires l in {SESSIONS, JOINS, COMMANDS, PROFILES, ENTITLEMENTS, ENTITLEMENTS_PER_IP}
    ensures 0.0 < l.rate && 0.0 <= l.burst <= Inflow(BUCKET_IDLE, l.rate)
  {
  }

  /** A rate of zero or less turns the limiter off. */
  lemma {:induction false} ZeroRateAllowsAll(l: Limits, events: seq<Event>)
    requires l.rate <= 0.0
    ensures forall ok <- Run(l, events).1 :: ok
    decreases |events|
  {
    if events != [] {
      match events[0]
      case Sweeping(at, idle) => ZeroRateAllowsAll(Sweep(l, at, idle), events[1..]);
      case Call(k, at) => ZeroRateAllowsAll(l, events[1..]);
    }
  }

  // ----- the limiter in place -----

  class RateLimiter {
    const rate: real
    const burst: real
    var buckets: map<string, Bucket>

    function Abs(): Limits
      reads this
    {
      Limits(rate, burst, buckets)
    }

    constructor (perMinute: real, burst: real)
      ensures Abs() == New(perMinute, burst)
    {
      rate, this.burst, buckets := perMinute / 60.0, burst, map[];
    }

    /** `allow` */
    method Take(key: string, now: real) returns (ok: bool)
      modifies this
      ensures (Abs(), ok) == Allow(old(Abs()), key, now)
    {
      if rate <= 0.0 { return true; }
      if key !in buckets {
        buckets := buckets[key := Bucket(burst, now)];
      }
      var b := buckets[key];
      var elapsed := now - b.last;
      if elapsed > 0.0 {
        b := Bucket(Min(burst, b.tokens + Inflow(elapsed, rate)), now);
        buckets := buckets[key := b];
      }
      if b.tokens < 1.0 {
        assert buckets == old(buckets)[key := b];
        return false;
      }
      buckets := buckets[key := b.(tokens := b.tokens - 1.0)];
      assert buckets == old(buckets)[key := b.(tokens := b.tokens - 1.0)];
      return true;
    }

    /** `sweep` */
    method Forget(now: real, idle: real)
      modifies this
      ensures Abs() == Sweep(old(Abs()), now, idle)
    {
      ghost var before := buckets;
      var todo := buckets.Keys;
      while todo != {}
        invariant todo <= before.Keys
        invariant buckets == map key | key in before && (key in todo || now - before[key].last <= idle) :: before[key]
      {
        var key :| key in todo;
        todo := todo - {key};
        if now - buckets[key].last > idle {
          buckets := buckets - {key};
        }
      }
    }
  }
}
