/**
 The inbound limiter (internal/ratelimit/ip.go): one token bucket per key, with
 idle buckets thrown away. The table of buckets is a cache, and the question is
 whether callers can tell.
 */
module IpLimiter {
  import opened Basics
  import opened TokenBucket

  datatype Tracked = Tracked(bucket: Bucket, lastSeen: real)

  /** lastSweep is None before the first call, which therefore always sweeps. */
  datatype State = State(buckets: map<string, Tracked>, lastSweep: Option<real>)

  function NewBucket(p: Params, now: real): Bucket {
    Bucket(p.Full(), now)
  }

  predicate SweepsAt(p: Params, s: State, now: real) {
    s.lastSweep.None? || now - s.lastSweep.value >= p.ttl
  }

  function Sweep(p: Params, s: State, now: real): State {
    if !SweepsAt(p, s, now) then s
    else State(map k | k in s.buckets && now - s.buckets[k].lastSeen <= p.ttl :: s.buckets[k], Some(now))
  }

  function AllowStep(p: Params, s: State, key: string, now: real): (State, Decision)
  {
    var swept := Sweep(p, s, now);
    var b := if key in swept.buckets then swept.buckets[key].bucket else NewBucket(p, now);
    var (b', d) := Take(p, b, now);
    (swept.(buckets := swept.buckets[key := Tracked(b', now)]), d)
  }

  class IPLimiter {
    const limit: real
    const burst: nat
    const ttl: real
    var buckets: map<string, Tracked>
    var lastSweep: Option<real>

    function Config(): Params {
      Params(limit, burst, ttl)
    }

    function Contents(): State
      reads this
    {
      State(buckets, lastSweep)
    }

    /** A burst below one is raised to one; idle buckets live ten minutes. */
    constructor (perMinute: real, burst: int)
      ensures Config() == Params(perMinute / 60.0, if burst < 1 then 1 else burst, 600.0)
      ensures Contents() == State(map[], None)
      ensures Config().Valid()
    {
      this.limit := perMinute / 60.0;
      this.burst := if burst < 1 then 1 else burst;
      this.ttl := 600.0;
      buckets := map[];
      lastSweep := None;
    }

    method Allow(key: string, now: real) returns (ok: bool, wait: real)
      modifies this
      ensures Contents() == AllowStep(Config(), old(Contents()), key, now).0
      ensures AllowStep(Config(), old(Contents()), key, now).1 == if ok then Granted else Denied(wait)
      ensures ok ==> wait == 0.0
    {
      SweepLocked(now);
      if key !in buckets {
        buckets := buckets[key := Tracked(NewBucket(Config(), now), now)];
      }
      var (b, d) := Take(Config(), buckets[key].bucket, now);
      buckets := buckets[key := Tracked(b, now)];
      if d.Denied? {
        return false, d.wait;
      }
      return true, 0.0;
    }

    method SweepLocked(now: real)
      modifies this
      ensures Contents() == Sweep(Config(), old(Contents()), now)
      ensures var swept := old(lastSweep).None? || now - old(lastSweep).value >= ttl;
              && (!swept ==> buckets == old(buckets) && lastSweep == old(lastSweep))
              && (swept ==> lastSweep == Some(now))
              && (swept ==> forall k :: k in buckets <==> k in old(buckets) && !(now - old(buckets)[k].lastSeen > ttl))
              && (forall k :: k in buckets ==> buckets[k] == old(buckets)[k])
    {
      if lastSweep.Some? && now - lastSweep.value < ttl {
        return;
      }
      lastSweep := Some(now);
      var todo := buckets.Keys;
      while todo != {}
        invariant todo <= old(buckets).Keys
        invariant forall k :: k in buckets <==>
                    k in old(buckets) && (k in todo || now - old(buckets)[k].lastSeen <= ttl)
        invariant forall k :: k in buckets ==> buckets[k] == old(buckets)[k]
        invariant lastSweep == Some(now)
      {
        var k := Pick(todo);
        todo := todo - {k};
        if now - buckets[k].lastSeen > ttl {
          buckets := map j | j in buckets && j != k :: buckets[j];
        }
      }
    }

    method Len() returns (n: nat)
      ensures n == |buckets|
    {
      n := |buckets|;
    }
  }

  // ---- runs of calls, with and without eviction ----

  datatype Call = Call(key: string, at: real)

  predicate InOrder(calls: seq<Call>) {
    forall i, j :: 0 <= i < j < |calls| ==> calls[i].at <= calls[j].at
  }

  function After(p: Params, calls: seq<Call>): State
  {
    if calls == [] then State(map[], None)
    else
      var c := calls[|calls| - 1];
      AllowStep(p, After(p, calls[..|calls| - 1]), c.key, c.at).0
  }

  function Verdict(p: Params, calls: seq<Call>, i: nat): Decision
    requires i < |calls|
  {
    AllowStep(p, After(p, calls[..i]), calls[i].key, calls[i].at).1
  }

  /** The limiter that never forgets a bucket. */
  function ForeverStep(p: Params, f: map<string, Bucket>, key: string, now: real): (map<string, Bucket>, Decision)
  {
    var b := if key in f then f[key] else NewBucket(p, now);
    var (b', d) := Take(p, b, now);
    (f[key := b'], d)
  }

  function AfterForever(p: Params, calls: seq<Call>): map<string, Bucket>
  {
    if calls == [] then map[]
    else
      var c := calls[|calls| - 1];
      ForeverStep(p, AfterForever(p, calls[..|calls| - 1]), c.key, c.at).0
  }

  function ForeverVerdict(p: Params, calls: seq<Call>, i: nat): Decision
    requires i < |calls|
  {
    ForeverStep(p, AfterForever(p, calls[..i]), calls[i].key, calls[i].at).1
  }

  /** Callers see no difference: every decision and every advertised wait is the same. */
  ghost predicate EvictionInvisible(p: Params, calls: seq<Call>)
  {
    forall i :: 0 <= i < |calls| ==> Verdict(p, calls, i) == ForeverVerdict(p, calls, i)
  }

  // ---- the two limiters side by side ----

  /** Kept buckets are equal; a forgotten bucket would be full again by now. */
  ghost predicate Agree(p: Params, s: State, f: map<string, Bucket>, now: real) {
    && (forall k :: k in s.buckets ==> k in f && s.buckets[k] == Tracked(f[k], f[k].last))
    && (forall k :: k in f ==> InRange(p, f[k]) && f[k].last <= now)
    && (forall k :: k in f && k !in s.buckets ==> Refill(p, f[k], now) == p.Full())
  }

  lemma AgreeLater(p: Params, s: State, f: map<string, Bucket>, t: real, u: real)
    requires p.Valid() && Agree(p, s, f, t) && t <= u
    ensures Agree(p, s, f, u)
  {
    forall k | k in f && k !in s.buckets ensures Refill(p, f[k], u) == p.Full() {
      RefillGrows(p, f[k], t, u);
    }
  }

  /** A bucket idle for longer than ttl has refilled completely when burst <= rate * ttl. */
  lemma IdleRefills(p: Params, b: Bucket, now: real)
    requires p.Valid() && InRange(p, b) && p.Full() <= p.rate * p.ttl && now - b.last > p.ttl
    ensures Refill(p, b, now) == p.Full()
  {
    BurstNeedsRate(p);
    GainGrows(p, p.ttl, now - b.last);
  }

  lemma BurstNeedsRate(p: Params)
    requires p.Valid() && p.Full() <= p.rate * p.ttl
    ensures p.rate > 0.0 && Gain(p, p.ttl) == p.rate * p.ttl
  {
    if p.rate <= 0.0 {
      ProductNonPositive(p.rate, p.ttl);
    }
  }

  lemma SweepKeepsAgreement(p: Params, s: State, f: map<string, Bucket>, now: real)
    requires p.Valid() && p.Full() <= p.rate * p.ttl && Agree(p, s, f, now)
    ensures Agree(p, Sweep(p, s, now), f, now)
  {
    forall k | k in f && k !in Sweep(p, s, now).buckets ensures Refill(p, f[k], now) == p.Full() {
      if k in s.buckets {
        IdleRefills(p, f[k], now);
      }
    }
  }

  lemma StepKeepsAgreement(p: Params, s: State, f: map<string, Bucket>, key: string, now: real)
    requires p.Valid() && p.Full() <= p.rate * p.ttl && Agree(p, s, f, now)
    ensures Agree(p, AllowStep(p, s, key, now).0, ForeverStep(p, f, key, now).0, now)
    ensures AllowStep(p, s, key, now).1 == ForeverStep(p, f, key, now).1
  {
    SweepKeepsAgreement(p, s, f, now);
    var b := if key in f then f[key] else NewBucket(p, now);
    TakeKeepsRange(p, b, now);
    assert Refill(p, NewBucket(p, now), now) == p.Full();
  }

  lemma {:induction false} RunsAgree(p: Params, calls: seq<Call>, now: real)
    requires p.Valid() && p.Full() <= p.rate * p.ttl && InOrder(calls)
    requires calls != [] ==> calls[|calls| - 1].at <= now
    ensures Agree(p, After(p, calls), AfterForever(p, calls), now)
  {
    if calls != [] {
      var n := |calls| - 1;
      RunsAgree(p, calls[..n], calls[n].at);
      StepKeepsAgreement(p, After(p, calls[..n]), AfterForever(p, calls[..n]), calls[n].key, calls[n].at);
      AgreeLater(p, After(p, calls), AfterForever(p, calls), calls[n].at, now);
    }
  }

  /** With burst <= rate * ttl, forgetting idle buckets can never be noticed. */
  lemma EvictionIsInvisible(p: Params, calls: seq<Call>)
    requires p.Valid() && p.burst as real <= p.rate * p.ttl && InOrder(calls)
    ensures EvictionInvisible(p, calls)
  {
    forall i | 0 <= i < |calls| ensures Verdict(p, calls, i) == ForeverVerdict(p, calls, i) {
      RunsAgree(p, calls[..i], calls[i].at);
      StepKeepsAgreement(p, After(p, calls[..i]), AfterForever(p, calls[..i]), calls[i].key, calls[i].at);
    }
  }

  // ---- and when it can be noticed ----

  function Repeat(c: Call, n: nat): seq<Call> {
    seq(n, i => c)
  }

  lemma RepeatMore(c: Call, n: nat)
    ensures Repeat(c, n + 1) == Repeat(c, n) + [c]
  {
  }

  lemma ExtendRun(p: Params, calls: seq<Call>, c: Call)
    ensures After(p, calls + [c]) == AllowStep(p, After(p, calls), c.key, c.at).0
    ensures AfterForever(p, calls + [c]) == ForeverStep(p, AfterForever(p, calls), c.key, c.at).0
    ensures Verdict(p, calls + [c], |calls|) == AllowStep(p, After(p, calls), c.key, c.at).1
    ensures ForeverVerdict(p, calls + [c], |calls|) == ForeverStep(p, AfterForever(p, calls), c.key, c.at).1
  {
    assert (calls + [c])[..|calls|] == calls;
  }

  /** The key has a fresh bucket from which m tokens were taken at this instant, after any sweep due. */
  predicate Drained(p: Params, s: State, key: string, at: real, m: nat) {
    !SweepsAt(p, s, at) && key in s.buckets && s.buckets[key] == Tracked(Bucket(p.Full() - m as real, at), at)
  }

  lemma DrainFirst(p: Params, s: State, key: string, at: real)
    requires p.Valid() && key !in Sweep(p, s, at).buckets
    ensures Drained(p, AllowStep(p, s, key, at).0, key, at, 1) && AllowStep(p, s, key, at).1 == Granted
  {
    TakeAtOnce(p, NewBucket(p, at));
  }

  lemma DrainNext(p: Params, s: State, key: string, at: real, m: nat)
    requires p.Valid() && Drained(p, s, key, at, m) && m < p.burst
    ensures Drained(p, AllowStep(p, s, key, at).0, key, at, m + 1) && AllowStep(p, s, key, at).1 == Granted
  {
    TakeAtOnce(p, s.buckets[key].bucket);
  }

  /** n calls at one instant on a bucket that is not tracked, n at most the burst, are all granted. */
  lemma {:induction false} BurstDrains(p: Params, calls: seq<Call>, key: string, at: real, n: nat)
    requires p.Valid() && 0 < n <= p.burst
    requires key !in Sweep(p, After(p, calls), at).buckets
    ensures Drained(p, After(p, calls + Repeat(Call(key, at), n)), key, at, n)
    ensures Verdict(p, calls + Repeat(Call(key, at), n), |calls| + n - 1) == Granted
  {
    var c := Call(key, at);
    var before := calls + Repeat(c, n - 1);
    OneMoreCall(calls, c, n - 1);
    ExtendRun(p, before, c);
    if n == 1 {
      DrainFirst(p, After(p, calls), key, at);
    } else {
      BurstDrains(p, calls, key, at, n - 1);
      DrainNext(p, After(p, before), key, at, n - 1);
    }
  }

  lemma OneMoreCall(calls: seq<Call>, c: Call, n: nat)
    ensures calls + Repeat(c, n + 1) == calls + Repeat(c, n) + [c] && |calls + Repeat(c, n)| == |calls| + n
    ensures n == 0 ==> calls + Repeat(c, n) == calls
  {
    RepeatMore(c, n);
  }

  /** Without eviction, n calls at one instant go to the one bucket of the key. */
  lemma {:induction false} ForeverBurst(p: Params, calls: seq<Call>, key: string, at: real, n: nat)
    requires key in AfterForever(p, calls)
    ensures var f := AfterForever(p, calls + Repeat(Call(key, at), n));
            key in f && f[key] == TakeMany(p, AfterForever(p, calls)[key], at, n)
    ensures n > 0 ==>
              ForeverVerdict(p, calls + Repeat(Call(key, at), n), |calls| + n - 1)
              == Take(p, TakeMany(p, AfterForever(p, calls)[key], at, n - 1), at).1
  {
    var c := Call(key, at);
    if n == 0 {
      assert calls + Repeat(c, 0) == calls;
    } else {
      ForeverBurst(p, calls, key, at, n - 1);
      RepeatMore(c, n - 1);
      assert calls + Repeat(c, n) == (calls + Repeat(c, n - 1)) + [c];
      ExtendRun(p, calls + Repeat(c, n - 1), c);
    }
  }

  /** The instant shortly after the ttl at which a drained bucket has still not refilled. */
  function Telltale(p: Params): real {
    if p.rate > 0.0 then (p.ttl + p.Full() / p.rate) / 2.0 else p.ttl + 1.0
  }

  lemma TelltaleIsLateAndEarly(p: Params)
    requires p.Valid() && p.Full() > p.rate * p.ttl
    ensures p.ttl < Telltale(p)
    ensures Gain(p, Telltale(p)) < p.Full()
  {
    if p.rate > 0.0 {
      var refill := p.Full() / p.rate;
      assert p.rate * refill == p.Full();
      if refill <= p.ttl {
        ProductGrows(p.rate, refill, p.ttl);
      }
      assert p.rate * Telltale(p) == (p.rate * p.ttl + p.rate * refill) / 2.0;
    }
  }

  /** A full burst, a pause a little longer than the ttl, and a second full burst. */
  function TelltaleCalls(p: Params): seq<Call>
  {
    Repeat(Call("k", 0.0), p.burst) + Repeat(Call("k", Telltale(p)), p.burst)
  }

  lemma {:induction false} SecondBurstGranted(p: Params, first: seq<Call>, n: nat)
    requires p.Valid() && p.ttl < Telltale(p) && n <= p.burst
    requires Drained(p, After(p, first), "k", 0.0, p.burst) && After(p, first).lastSweep == Some(0.0)
    ensures forall i :: |first| <= i < |first| + n ==>
              Verdict(p, first + Repeat(Call("k", Telltale(p)), n), i) == Granted
  {
    var c := Call("k", Telltale(p));
    if n > 0 {
      SecondBurstGranted(p, first, n - 1);
      var shorter, longer := first + Repeat(c, n - 1), first + Repeat(c, n);
      BurstDrains(p, first, "k", Telltale(p), n);
      forall i | |first| <= i < |first| + n ensures Verdict(p, longer, i) == Granted {
        if i < |first| + n - 1 {
          assert longer[..i] == shorter[..i] && longer[i] == shorter[i];
          assert Verdict(p, shorter, i) == Granted;
        }
      }
    }
  }

  lemma {:induction false} FirstBurstSweepsOnce(p: Params, n: nat)
    requires p.Valid() && 0 < n
    ensures After(p, Repeat(Call("k", 0.0), n)).lastSweep == Some(0.0)
  {
    var c := Call("k", 0.0);
    RepeatMore(c, n - 1);
    ExtendRun(p, Repeat(c, n - 1), c);
    if n > 1 {
      FirstBurstSweepsOnce(p, n - 1);
    }
  }

  lemma RepeatPrefix(calls: seq<Call>, c: Call, n: nat, i: nat)
    requires i < n
    ensures (calls + Repeat(c, n))[..|calls| + i] == calls + Repeat(c, i)
    ensures (calls + Repeat(c, n))[|calls| + i] == c
  {
    assert Repeat(c, n)[..i] == Repeat(c, i);
  }

  /** The i-th of a run of calls at one instant, read off the bucket. */
  lemma ForeverBurstAt(p: Params, calls: seq<Call>, key: string, at: real, n: nat, i: nat)
    requires key in AfterForever(p, calls) && i < n
    ensures ForeverVerdict(p, calls + Repeat(Call(key, at), n), |calls| + i)
         == Take(p, TakeMany(p, AfterForever(p, calls)[key], at, i), at).1
  {
    RepeatPrefix(calls, Call(key, at), n, i);
    ForeverBurst(p, calls, key, at, i);
  }

  /** A bucket that has not refilled cannot cover a full burst. */
  lemma BurstNotCovered(p: Params, b: Bucket, at: real)
    requires p.Valid() && Refill(p, b, at) < p.Full()
    ensures exists i: nat :: i < p.burst && Take(p, TakeMany(p, b, at, i), at).1 != Granted
  {
    if forall i: nat :: i < p.burst ==> Take(p, TakeMany(p, b, at, i), at).1 == Granted {
      GrantedWereHeld(p, b, at, p.burst);
    }
  }

  /** The tokens left from the first burst cannot cover the second. */
  lemma SecondBurstNotCovered(p: Params, first: seq<Call>, at: real) returns (i: nat)
    requires p.Valid() && "k" in AfterForever(p, first) && Refill(p, AfterForever(p, first)["k"], at) < p.Full()
    ensures |first| <= i < |first| + p.burst
    ensures ForeverVerdict(p, first + Repeat(Call("k", at), p.burst), i) != Granted
  {
    var b := AfterForever(p, first)["k"];
    BurstNotCovered(p, b, at);
    var n: nat :| n < p.burst && Take(p, TakeMany(p, b, at, n), at).1 != Granted;
    ForeverBurstAt(p, first, "k", at, p.burst, n);
    i := |first| + n;
  }

  lemma FirstCallTakes(p: Params)
    requires p.Valid()
    ensures ForeverStep(p, map[], "k", 0.0).0 == map["k" := Bucket(p.Full() - 1.0, 0.0)]
  {
    TakeAtOnce(p, NewBucket(p, 0.0));
  }

  lemma NextCallTakes(p: Params, n: nat)
    requires p.Valid() && 0 < n < p.burst
    ensures ForeverStep(p, map["k" := Bucket(p.Full() - n as real, 0.0)], "k", 0.0).0
         == map["k" := Bucket(p.Full() - (n + 1) as real, 0.0)]
  {
    TakeAtOnce(p, Bucket(p.Full() - n as real, 0.0));
  }

  lemma ForeverExtends(p: Params, calls: seq<Call>, c: Call)
    ensures AfterForever(p, calls + [c]) == ForeverStep(p, AfterForever(p, calls), c.key, c.at).0
  {
    assert (calls + [c])[..|calls|] == calls;
  }

  lemma OneMoreForever(p: Params, c: Call, n: nat)
    ensures AfterForever(p, Repeat(c, n + 1)) == ForeverStep(p, AfterForever(p, Repeat(c, n)), c.key, c.at).0
  {
    RepeatMore(c, n);
    ForeverExtends(p, Repeat(c, n), c);
  }

  lemma {:induction false} FirstBurstSame(p: Params, n: nat)
    requires p.Valid() && 0 < n <= p.burst
    ensures AfterForever(p, Repeat(Call("k", 0.0), n)) == map["k" := Bucket(p.Full() - n as real, 0.0)]
  {
    OneMoreForever(p, Call("k", 0.0), n - 1);
    if n > 1 {
      FirstBurstSame(p, n - 1);
      NextCallTakes(p, n - 1);
    } else {
      assert AfterForever(p, Repeat(Call("k", 0.0), 0)) == map[];
      FirstCallTakes(p);
    }
  }

  /** Where both limiters stand after the first burst. */
  lemma AfterFirstBurst(p: Params)
    requires p.Valid()
    ensures var first := Repeat(Call("k", 0.0), p.burst);
            && Drained(p, After(p, first), "k", 0.0, p.burst) && After(p, first).lastSweep == Some(0.0)
            && AfterForever(p, first) == map["k" := Bucket(0.0, 0.0)]
  {
    var first := Repeat(Call("k", 0.0), p.burst);
    assert [] + first == first;
    BurstDrains(p, [], "k", 0.0, p.burst);
    FirstBurstSweepsOnce(p, p.burst);
    FirstBurstSame(p, p.burst);
  }

  lemma TelltaleInOrder(p: Params)
    requires p.Valid() && p.ttl < Telltale(p)
    ensures InOrder(TelltaleCalls(p))
  {
  }

  lemma EmptyRefills(p: Params, at: real)
    requires p.Valid() && Gain(p, at) < p.Full()
    ensures Refill(p, Bucket(0.0, 0.0), at) < p.Full()
  {
  }

  /** The same calls with burst > rate * ttl: forgetting the bucket grants a burst the tokens do not cover. */
  lemma EvictionIsVisible(p: Params)
    requires p.Valid() && p.Full() > p.rate * p.ttl
    ensures InOrder(TelltaleCalls(p)) && !EvictionInvisible(p, TelltaleCalls(p))
  {
    TelltaleIsLateAndEarly(p);
    TelltaleInOrder(p);
    AfterFirstBurst(p);
    var first := Repeat(Call("k", 0.0), p.burst);
    SecondBurstGranted(p, first, p.burst);
    EmptyRefills(p, Telltale(p));
    var i := SecondBurstNotCovered(p, first, Telltale(p));
    assert Verdict(p, TelltaleCalls(p), i) == Granted;
  }

  /** Eviction is invisible to every sequence of calls exactly when an idle ttl refills a whole burst. */
  lemma EvictionInvisibleExactlyWhen(p: Params)
    requires p.Valid()
    ensures (forall calls :: InOrder(calls) ==> EvictionInvisible(p, calls)) <==> p.burst as real <= p.rate * p.ttl
  {
    if p.Full() <= p.rate * p.ttl {
      forall calls | InOrder(calls) ensures EvictionInvisible(p, calls) {
        EvictionIsInvisible(p, calls);
      }
    } else {
      EvictionIsVisible(p);
    }
  }

  // ---- the rate bound ----

  /** Calls for a key granted in the closed interval from a to b. */
  function GrantedIn(p: Params, calls: seq<Call>, key: string, a: real, b: real): nat
  {
    if calls == [] then 0
    else
      var n := |calls| - 1;
      GrantedIn(p, calls[..n], key, a, b)
      + (if calls[n].key == key && a <= calls[n].at <= b && Verdict(p, calls, n) == Granted then 1 else 0)
  }

  /** Tokens the key could still spend at this moment. */
  function Available(p: Params, f: map<string, Bucket>, key: string, now: real): real {
    if key in f then Refill(p, f[key], now) else p.Full()
  }

  lemma AvailableGrows(p: Params, f: map<string, Bucket>, key: string, t: real, u: real)
    requires p.Valid() && t <= u && (key in f ==> InRange(p, f[key]) && f[key].last <= t)
    ensures Available(p, f, key, t) <= p.Full() && Available(p, f, key, u) <= p.Full()
    ensures Available(p, f, key, u) <= Available(p, f, key, t) + Gain(p, u - t)
  {
    GainNonNegative(p, u - t);
    if key in f {
      RefillGrows(p, f[key], t, u);
    }
  }

  /** One call spends one token of its own key if it is granted, and none otherwise. */
  lemma CallSpends(p: Params, f: map<string, Bucket>, c: Call, key: string)
    requires p.Valid() && (key in f ==> InRange(p, f[key]) && f[key].last <= c.at)
    ensures var (f', d) := ForeverStep(p, f, c.key, c.at);
            && Available(p, f', key, c.at) == Available(p, f, key, c.at) - (if c.key == key && d == Granted then 1.0 else 0.0)
            && (c.key == key && d == Granted ==> Available(p, f, key, c.at) >= 1.0)
            && Available(p, f, key, c.at) <= p.Full() && Available(p, f', key, c.at) <= p.Full()
  {
    if c.key == key {
      var b := if key in f then f[key] else NewBucket(p, c.at);
      TakeAtOnce(p, NewBucket(p, c.at));
      TakeAtOnce(p, Take(p, b, c.at).0);
    }
  }

  /** Grants so far plus tokens left stay within what the interval has yielded up to `now`. */
  ghost predicate WithinBudget(p: Params, granted: nat, available: real, a: real, b: real, now: real) {
    && (now < a ==> granted == 0)
    && (a <= now <= b ==> granted as real + available <= p.Full() + Gain(p, now - a))
    && granted as real <= p.Full() + Gain(p, b - a)
  }

  lemma BudgetOverTime(p: Params, granted: nat, before: real, after: real, a: real, b: real, t: real, u: real)
    requires p.Valid() && WithinBudget(p, granted, before, a, b, t) && a <= b && t <= u
    requires after <= before + Gain(p, u - t) && after <= p.Full()
    ensures WithinBudget(p, granted, after, a, b, u)
  {
    if a <= u {
      GainNonNegative(p, u - a);
      if a <= t {
        GainAdds(p, t - a, u - t);
        assert t - a + (u - t) == u - a;
      }
    }
  }

  lemma BudgetAfterCall(p: Params, granted: nat, available: real, spent: bool, a: real, b: real, now: real)
    requires p.Valid() && WithinBudget(p, granted, available, a, b, now) && a <= b && available <= p.Full()
    requires spent ==> available >= 1.0
    ensures WithinBudget(p, if spent && a <= now <= b then granted + 1 else granted,
                         if spent then available - 1.0 else available, a, b, now)
  {
    if a <= now <= b {
      GainGrows(p, now - a, b - a);
    }
  }

  /** How one call moves the tokens of a key, and how they have grown by a later moment. */
  ghost predicate Spends(p: Params, f: map<string, Bucket>, f': map<string, Bucket>, key: string, spent: bool, at: real, now: real) {
    && Available(p, f', key, at) == Available(p, f, key, at) - (if spent then 1.0 else 0.0)
    && (spent ==> Available(p, f, key, at) >= 1.0)
    && Available(p, f, key, at) <= p.Full()
    && Available(p, f', key, now) <= Available(p, f', key, at) + Gain(p, now - at)
    && Available(p, f', key, now) <= p.Full()
  }

  lemma StepSpends(p: Params, s: State, f: map<string, Bucket>, c: Call, key: string, now: real)
    requires p.Valid() && p.Full() <= p.rate * p.ttl && Agree(p, s, f, c.at) && c.at <= now
    ensures Spends(p, f, ForeverStep(p, f, c.key, c.at).0, key,
                   c.key == key && AllowStep(p, s, c.key, c.at).1 == Granted, c.at, now)
  {
    StepKeepsAgreement(p, s, f, c.key, c.at);
    var f' := ForeverStep(p, f, c.key, c.at).0;
    CallSpends(p, f, c, key);
    AvailableGrows(p, f', key, c.at, now);
  }

  lemma BudgetStep(p: Params, f: map<string, Bucket>, f': map<string, Bucket>, key: string, spent: bool, granted: nat,
                   a: real, b: real, at: real, now: real)
    requires p.Valid() && a <= b && at <= now && Spends(p, f, f', key, spent, at, now)
    requires WithinBudget(p, granted, Available(p, f, key, at), a, b, at)
    ensures WithinBudget(p, if spent && a <= at <= b then granted + 1 else granted, Available(p, f', key, now), a, b, now)
  {
    BudgetAfterCall(p, granted, Available(p, f, key, at), spent, a, b, at);
    BudgetOverTime(p, if spent && a <= at <= b then granted + 1 else granted,
                   Available(p, f', key, at), Available(p, f', key, now), a, b, at, now);
  }

  lemma BudgetAtStart(p: Params, a: real, b: real, now: real)
    requires p.Valid() && a <= b
    ensures WithinBudget(p, 0, p.Full(), a, b, now)
  {
    GainNonNegative(p, b - a);
    if a <= now {
      GainNonNegative(p, now - a);
    }
  }

  lemma {:induction false} SpentWithinBudget(p: Params, calls: seq<Call>, key: string, a: real, b: real, now: real)
    requires p.Valid() && p.Full() <= p.rate * p.ttl && InOrder(calls) && a <= b
    requires calls != [] ==> calls[|calls| - 1].at <= now
    ensures WithinBudget(p, GrantedIn(p, calls, key, a, b), Available(p, AfterForever(p, calls), key, now), a, b, now)
  {
    if calls == [] {
      BudgetAtStart(p, a, b, now);
    } else {
      var n := |calls| - 1;
      SpentWithinBudget(p, calls[..n], key, a, b, calls[n].at);
      BudgetExtends(p, calls[..n], calls[n], key, a, b, now);
      assert calls[..n] + [calls[n]] == calls;
    }
  }

  lemma BudgetExtends(p: Params, front: seq<Call>, c: Call, key: string, a: real, b: real, now: real)
    requires p.Valid() && p.Full() <= p.rate * p.ttl && InOrder(front + [c]) && a <= b && c.at <= now
    requires WithinBudget(p, GrantedIn(p, front, key, a, b), Available(p, AfterForever(p, front), key, c.at), a, b, c.at)
    ensures WithinBudget(p, GrantedIn(p, front + [c], key, a, b),
                         Available(p, AfterForever(p, front + [c]), key, now), a, b, now)
  {
    assert InOrder(front) && (front != [] ==> front[|front| - 1].at <= c.at) by {
      assert forall i :: 0 <= i < |front| ==> (front + [c])[i] == front[i];
      assert (front + [c])[|front|] == c;
    }
    RunsAgree(p, front, c.at);
    var s, f := After(p, front), AfterForever(p, front);
    StepSpends(p, s, f, c, key, now);
    ExtendRun(p, front, c);
    assert (front + [c])[..|front|] == front;
    var spent := c.key == key && AllowStep(p, s, c.key, c.at).1 == Granted;
    BudgetStep(p, f, ForeverStep(p, f, c.key, c.at).0, key, spent, GrantedIn(p, front, key, a, b), a, b, c.at, now);
  }

  lemma RateBoundByGain(p: Params, calls: seq<Call>, key: string, a: real, b: real)
    requires p.Valid() && p.Full() <= p.rate * p.ttl && InOrder(calls) && a <= b
    ensures GrantedIn(p, calls, key, a, b) as real <= p.Full() + Gain(p, b - a)
  {
    SpentWithinBudget(p, calls, key, a, b, if calls == [] then a else calls[|calls| - 1].at);
  }

  /** No more than a burst and what the rate, if it is one, yields in a stretch of so many seconds. */
  predicate IsWithinRate(p: Params, granted: nat, d: real) {
    granted as real <= p.burst as real + if p.rate > 0.0 then p.rate * d else 0.0
  }

  lemma WithinRateByGain(p: Params, granted: nat, d: real)
    requires d >= 0.0
    ensures IsWithinRate(p, granted, d) <==> granted as real <= p.Full() + Gain(p, d)
  {
    assert p.rate * 0.0 == 0.0;
  }

  /**
   Over any interval, across refusals, cancelled reservations and evictions, a key
   gets at most a burst plus what the rate yields in that time.
   */
  lemma RateBound(p: Params, calls: seq<Call>, key: string, a: real, b: real)
    requires p.Valid() && p.burst as real <= p.rate * p.ttl && InOrder(calls) && a <= b
    ensures IsWithinRate(p, GrantedIn(p, calls, key, a, b), b - a)
  {
    RateBoundByGain(p, calls, key, a, b);
    WithinRateByGain(p, GrantedIn(p, calls, key, a, b), b - a);
  }

  lemma {:induction false} AllGrantedCount(p: Params, calls: seq<Call>, key: string, a: real, b: real)
    requires forall i :: 0 <= i < |calls| ==> calls[i].key == key && a <= calls[i].at <= b && Verdict(p, calls, i) == Granted
    ensures GrantedIn(p, calls, key, a, b) == |calls|
  {
    if calls != [] {
      var front := calls[..|calls| - 1];
      forall i | 0 <= i < |front| ensures Verdict(p, front, i) == Granted {
        assert front[..i] == calls[..i];
        assert Verdict(p, calls, i) == Granted;
      }
      AllGrantedCount(p, front, key, a, b);
    }
  }

  lemma FirstBurstGranted(p: Params, second: seq<Call>, i: nat)
    requires p.Valid() && i < p.burst
    ensures Verdict(p, Repeat(Call("k", 0.0), p.burst) + second, i) == Granted
  {
    var c := Call("k", 0.0);
    var calls := Repeat(c, p.burst) + second;
    BurstDrains(p, [], "k", 0.0, i + 1);
    assert [] + Repeat(c, i + 1) == Repeat(c, i + 1);
    assert calls[..i] == Repeat(c, i + 1)[..i];
  }

  lemma TwoBurstsExceedGain(p: Params)
    requires p.Valid() && p.Full() > p.rate * p.ttl
    ensures InOrder(TelltaleCalls(p)) && 0.0 <= Telltale(p)
    ensures GrantedIn(p, TelltaleCalls(p), "k", 0.0, Telltale(p)) as real > p.Full() + Gain(p, Telltale(p))
  {
    TelltaleIsLateAndEarly(p);
    TelltaleInOrder(p);
    AfterFirstBurst(p);
    SecondBurstGranted(p, Repeat(Call("k", 0.0), p.burst), p.burst);
    forall i | 0 <= i < p.burst ensures Verdict(p, TelltaleCalls(p), i) == Granted {
      FirstBurstGranted(p, Repeat(Call("k", Telltale(p)), p.burst), i);
    }
    AllGrantedCount(p, TelltaleCalls(p), "k", 0.0, Telltale(p));
  }

  /** When an idle ttl does not refill a burst, eviction lets two whole bursts through in too short a time. */
  lemma TwoBurstsExceedRate(p: Params)
    requires p.Valid() && p.Full() > p.rate * p.ttl
    ensures InOrder(TelltaleCalls(p)) && 0.0 <= Telltale(p)
    ensures !IsWithinRate(p, GrantedIn(p, TelltaleCalls(p), "k", 0.0, Telltale(p)), Telltale(p))
  {
    TwoBurstsExceedGain(p);
    WithinRateByGain(p, GrantedIn(p, TelltaleCalls(p), "k", 0.0, Telltale(p)), Telltale(p));
  }

  /** The rate bound holds for every run and every interval exactly under the condition that hides eviction. */
  lemma RateBoundExactlyWhen(p: Params)
    requires p.Valid()
    ensures (forall calls, key, a, b :: InOrder(calls) && a <= b ==>
               IsWithinRate(p, GrantedIn(p, calls, key, a, b), b - a))
       <==> p.burst as real <= p.rate * p.ttl
  {
    if p.Full() <= p.rate * p.ttl {
      forall calls, key, a, b | InOrder(calls) && a <= b
        ensures IsWithinRate(p, GrantedIn(p, calls, key, a, b), b - a)
      {
        RateBound(p, calls, key, a, b);
      }
    } else {
      TwoBurstsExceedRate(p);
    }
  }

  // ---- bounded memory ----

  /** Keys called later than `since` before. */
  function RecentKeys(calls: seq<Call>, since: real): set<string> {
    set i | 0 <= i < |calls| && calls[i].at > since :: calls[i].key
  }

  ghost predicate WasCalled(calls: seq<Call>, key: string, at: real) {
    exists i :: 0 <= i < |calls| && calls[i] == Call(key, at)
  }

  ghost predicate SweptRecently(p: Params, calls: seq<Call>, now: real)
  {
    var s := After(p, calls);
    && s.lastSweep.Some? && s.lastSweep.value <= now && now - s.lastSweep.value < p.ttl
    && forall k :: k in s.buckets ==>
         s.lastSweep.value - s.buckets[k].lastSeen <= p.ttl && WasCalled(calls, k, s.buckets[k].lastSeen)
  }

  lemma {:induction false} SweepsKeepUp(p: Params, calls: seq<Call>)
    requires p.Valid() && InOrder(calls) && calls != []
    ensures SweptRecently(p, calls, calls[|calls| - 1].at)
  {
    var n := |calls| - 1;
    var front, c := calls[..n], calls[n];
    if front != [] {
      SweepsKeepUp(p, front);
    }
    var before, after := After(p, front), After(p, calls);
    forall k | k in after.buckets
      ensures after.lastSweep.value - after.buckets[k].lastSeen <= p.ttl && WasCalled(calls, k, after.buckets[k].lastSeen)
    {
      if k == c.key {
        assert calls[n] == Call(k, after.buckets[k].lastSeen);
      } else {
        var i :| 0 <= i < |front| && front[i] == Call(k, before.buckets[k].lastSeen);
        assert calls[i] == front[i];
      }
    }
  }

  /**
   Right after a call at time t every tracked bucket was last used less than two
   ttls before t, so the table is no larger than the number of keys seen in that
   window. This needs no condition on the burst.
   */
  lemma MemoryIsBounded(p: Params, calls: seq<Call>)
    requires p.Valid() && InOrder(calls) && calls != []
    ensures var t := calls[|calls| - 1].at;
            && (forall k :: k in After(p, calls).buckets ==> t - After(p, calls).buckets[k].lastSeen < 2.0 * p.ttl)
            && |After(p, calls).buckets| <= |RecentKeys(calls, t - 2.0 * p.ttl)|
  {
    SweepsKeepUp(p, calls);
    var t := calls[|calls| - 1].at;
    var buckets, recent := After(p, calls).buckets, RecentKeys(calls, t - 2.0 * p.ttl);
    forall k | k in buckets ensures k in recent {
      var i :| 0 <= i < |calls| && calls[i] == Call(k, buckets[k].lastSeen);
      assert calls[i].at > t - 2.0 * p.ttl;
    }
    SubsetIsSmaller(buckets.Keys, recent);
    assert |buckets| == |buckets.Keys|;
  }

  /** The service's own settings, ten a minute with a burst of five, meet the condition. */
  lemma DefaultsAreInvisible(calls: seq<Call>)
    requires InOrder(calls)
    ensures EvictionInvisible(Params(10.0 / 60.0, 5, 600.0), calls)
  {
    EvictionIsInvisible(Params(10.0 / 60.0, 5, 600.0), calls);
  }
}
