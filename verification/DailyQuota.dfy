/**
 The daily budget (internal/ratelimit/quota.go) and the reserve-wait-refund call
 built on it (internal/ratelimit/limiter.go). Counters are reset lazily, by
 whichever class happens to ask first after midnight, and a refund never resets.
 */
module DailyQuota {
  import opened Basics

  datatype Class = ClassPoll | ClassSearch

  type Midnight = Time -> Time

  /**
   What is assumed of the calendar: midnight lies ahead, and it stays the same
   midnight until it is reached. Days may have any length.
   */
  ghost predicate IsCalendar(nm: Midnight) {
    && (forall t :: t < nm(t))
    && (forall t, u :: t <= u < nm(t) ==> nm(u) == nm(t))
  }

  /** Days of 24 hours in UTC, as an example that the assumption can be met. */
  function UtcMidnight(t: Time): Time {
    (t / 86_400_000_000_000 + 1) * 86_400_000_000_000
  }

  lemma UtcIsACalendar()
    ensures IsCalendar(UtcMidnight)
  {
    forall t: Time ensures t < UtcMidnight(t) {
    }
    forall t: Time, u: Time | t <= u < UtcMidnight(t) ensures UtcMidnight(u) == UtcMidnight(t) {
    }
  }

  /** t lies on the day that begins at starts(k) and ends at starts(k + 1). */
  predicate IsOnDay(starts: int -> Time, t: Time, k: int) {
    starts(k) <= t < starts(k + 1)
  }

  /** Days of whatever lengths, 23 and 25 hours among them, make a calendar as long as each follows the one before. */
  lemma DaysOfAnyLengthAreACalendar(starts: int -> Time, nm: Midnight)
    requires forall i, k :: i < k ==> starts(i) < starts(k)
    requires forall t :: exists k :: IsOnDay(starts, t, k) && nm(t) == starts(k + 1)
    ensures IsCalendar(nm)
  {
    forall t: Time ensures t < nm(t) {
      var k :| IsOnDay(starts, t, k) && nm(t) == starts(k + 1);
    }
    forall t: Time, u: Time | t <= u < nm(t) ensures nm(u) == nm(t) {
      var k :| IsOnDay(starts, t, k) && nm(t) == starts(k + 1);
      var m :| IsOnDay(starts, u, m) && nm(u) == starts(m + 1);
      assert m < k ==> starts(m + 1) <= starts(k);
      assert k < m ==> starts(k + 1) <= starts(m);
    }
  }

  datatype Counters = Counters(resetAt: Time, used: map<Class, int>)

  /** A class without an entry has used nothing. */
  function Used(q: Counters, c: Class): int {
    if c in q.used then q.used[c] else 0
  }

  function Budget(budget: map<Class, int>, c: Class): int {
    if c in budget then budget[c] else 0
  }

  /** The clock is read twice: once to decide, and once more to find the next midnight. */
  function MaybeReset(nm: Midnight, q: Counters, at: Time, again: Time): Counters {
    if at < q.resetAt then q else Counters(nm(again), map[])
  }

  function ReserveStep(nm: Midnight, budget: map<Class, int>, q: Counters, c: Class, at: Time, again: Time): (Counters, bool) {
    var r := MaybeReset(nm, q, at, again);
    if Used(r, c) >= Budget(budget, c) then (r, false)
    else (r.(used := r.used[c := Used(r, c) + 1]), true)
  }

  function ReleaseStep(q: Counters, c: Class): Counters {
    if Used(q, c) > 0 then q.(used := q.used[c := Used(q, c) - 1]) else q
  }

  function LeftOf(budget: map<Class, int>, q: Counters, c: Class): nat {
    var r := Budget(budget, c) - Used(q, c);
    if r > 0 then r else 0
  }

  class DailyQuota {
    const budget: map<Class, int>
    const nextMidnight: Midnight
    var resetAt: Time
    var used: map<Class, int>

    function Contents(): Counters
      reads this
    {
      Counters(resetAt, used)
    }

    constructor (pollBudget: int, searchBudget: int, nextMidnight: Midnight, now: Time)
      ensures budget == map[ClassPoll := pollBudget, ClassSearch := searchBudget]
      ensures this.nextMidnight == nextMidnight && Contents() == Counters(nextMidnight(now), map[])
    {
      budget := map[ClassPoll := pollBudget, ClassSearch := searchBudget];
      this.nextMidnight := nextMidnight;
      resetAt := nextMidnight(now);
      used := map[];
    }

    method Reserve(c: Class, at: Time, again: Time) returns (ok: bool)
      modifies this
      ensures (Contents(), ok) == ReserveStep(nextMidnight, budget, old(Contents()), c, at, again)
      ensures ok <==> Used(MaybeReset(nextMidnight, old(Contents()), at, again), c) < if c in budget then budget[c] else 0
    {
      ResetIfDue(at, again);
      var n := if c in used then used[c] else 0;
      if n >= (if c in budget then budget[c] else 0) {
        return false;
      }
      used := used[c := n + 1];
      return true;
    }

    method Release(c: Class)
      modifies this
      ensures Contents() == ReleaseStep(old(Contents()), c)
    {
      if c in used && used[c] > 0 {
        used := used[c := used[c] - 1];
      }
    }

    method Remaining(c: Class, at: Time, again: Time) returns (r: nat)
      modifies this
      ensures Contents() == MaybeReset(nextMidnight, old(Contents()), at, again)
      ensures r == LeftOf(budget, Contents(), c)
      ensures var left := (if c in budget then budget[c] else 0) - Used(Contents(), c);
              r == if left > 0 then left else 0
    {
      ResetIfDue(at, again);
      var left := (if c in budget then budget[c] else 0) - (if c in used then used[c] else 0);
      return if left > 0 then left else 0;
    }

    method Snapshot(at: Time, again: Time) returns (usage: map<Class, int>, allowance: map<Class, int>, until: Time)
      modifies this
      ensures Contents() == MaybeReset(nextMidnight, old(Contents()), at, again)
      ensures usage == used && allowance == budget && until == resetAt
    {
      ResetIfDue(at, again);
      return used, budget, resetAt;
    }

    method ResetIfDue(at: Time, again: Time)
      modifies this
      ensures Contents() == MaybeReset(nextMidnight, old(Contents()), at, again)
    {
      if !(at < resetAt) {
        used := map[];
        resetAt := nextMidnight(again);
      }
    }
  }

  datatype Acquired = Acquired | BudgetExhausted | WaitCancelled

  class Limiter {
    const quota: DailyQuota

    constructor (quota: DailyQuota)
      ensures this.quota == quota
    {
      this.quota := quota;
    }

    /** What other callers do while this one waits. */
    method OthersAct(others: seq<Op>)
      modifies quota
      ensures quota.Contents() == After(quota.nextMidnight, quota.budget, old(quota.Contents()), others)
    {
      for i := 0 to |others|
        invariant quota.Contents() == After(quota.nextMidnight, quota.budget, old(quota.Contents()), others[..i])
      {
        assert others[..i + 1][..i] == others[..i];
        match others[i] {
          case Reserve(c, at, again) => var _ := quota.Reserve(c, at, again);
          case Release(c, _, _) => quota.Release(c);
          case Remaining(c, at, again) => var _ := quota.Remaining(c, at, again);
          case Peek(at, again) => var _, _, _ := quota.Snapshot(at, again);
        }
      }
      assert others[..|others|] == others;
    }

    /**
     Reserve, wait for a per-second token, refund if the wait is cancelled. Nothing
     is locked during the wait, so `others` may act on the quota in between; the
     outcome of the wait is an input. What is left behind is a trace of quota
     operations, so the accounting of traces below covers it.
     */
    method Acquire(c: Class, at: Time, again: Time, others: seq<Op>, tokenGranted: bool, cancelledAt: Time) returns (r: Acquired)
      modifies quota
      ensures var was := old(quota.Contents());
              var due := MaybeReset(quota.nextMidnight, was, at, again);
              && (r == BudgetExhausted <==> Used(due, c) >= if c in quota.budget then quota.budget[c] else 0)
              && (r != BudgetExhausted ==> (r == Acquired <==> tokenGranted))
              && quota.Contents() == After(quota.nextMidnight, quota.budget, was, AcquireOps(r, c, at, again, others, cancelledAt))
              && (r == BudgetExhausted ==> quota.Contents() == due)
              && (r == WaitCancelled && others == [] && Used(due, c) >= 0 ==>
                    forall d :: Used(quota.Contents(), d) == Used(due, d))
    {
      ghost var was, nm := quota.Contents(), quota.nextMidnight;
      var ok := quota.Reserve(c, at, again);
      Extend(nm, quota.budget, was, [], Op.Reserve(c, at, again));
      assert [] + [Op.Reserve(c, at, again)] == [Op.Reserve(c, at, again)];
      if !ok {
        return BudgetExhausted;
      }
      OthersAct(others);
      AfterSplit(nm, quota.budget, was, [Op.Reserve(c, at, again)], others);
      if !tokenGranted {
        quota.Release(c);
        Extend(nm, quota.budget, was, [Op.Reserve(c, at, again)] + others, Op.Release(c, cancelledAt, 0));
        return WaitCancelled;
      }
      return Acquired;
    }
  }

  /** The quota operations one call of Acquire amounts to, those of others included. */
  function AcquireOps(r: Acquired, c: Class, at: Time, again: Time, others: seq<Op>, cancelledAt: Time): seq<Op> {
    match r
    case BudgetExhausted => [Op.Reserve(c, at, again)]
    case Acquired => [Op.Reserve(c, at, again)] + others
    case WaitCancelled => [Op.Reserve(c, at, again)] + others + [Op.Release(c, cancelledAt, 0)]
  }

  // ---- traces of operations ----

  /** A release names the reservation it refunds by its place in the trace. */
  datatype Op =
    | Reserve(c: Class, at: Time, again: Time)
    | Release(c: Class, at: Time, of: nat)
    | Remaining(c: Class, at: Time, again: Time)
    | Peek(at: Time, again: Time)

  datatype Result = Granted | Refused | Refunded | Left(n: nat) | Peeked

  function Apply(nm: Midnight, budget: map<Class, int>, q: Counters, op: Op): (Counters, Result) {
    match op
    case Reserve(c, at, again) =>
      var (q', ok) := ReserveStep(nm, budget, q, c, at, again); (q', if ok then Granted else Refused)
    case Release(c, _, _) => (ReleaseStep(q, c), Refunded)
    case Remaining(c, at, again) =>
      var q' := MaybeReset(nm, q, at, again); (q', Left(LeftOf(budget, q', c)))
    case Peek(at, again) => (MaybeReset(nm, q, at, again), Peeked)
  }

  function After(nm: Midnight, budget: map<Class, int>, q: Counters, ops: seq<Op>): Counters {
    if ops == [] then q else Apply(nm, budget, After(nm, budget, q, ops[..|ops| - 1]), ops[|ops| - 1]).0
  }

  function ResultAt(nm: Midnight, budget: map<Class, int>, q: Counters, ops: seq<Op>, i: nat): Result
    requires i < |ops|
  {
    Apply(nm, budget, After(nm, budget, q, ops[..i]), ops[i]).1
  }

  /** When the last clock reading of an operation was taken. */
  function End(op: Op): Time {
    if op.Release? then op.at else op.again
  }

  /** The last operation has been finished by then. */
  predicate IsOver(ops: seq<Op>, now: Time) {
    ops != [] ==> End(ops[|ops| - 1]) <= now
  }

  /** The lock makes every operation finish before the next one reads the clock, and the clock never runs backwards. */
  ghost predicate Sequential(start: Time, ops: seq<Op>) {
    && (forall i :: 0 <= i < |ops| ==> start <= ops[i].at <= End(ops[i]))
    && (forall i, j :: 0 <= i < j < |ops| ==> End(ops[i]) <= ops[j].at)
  }

  lemma SequentialFront(start: Time, ops: seq<Op>)
    requires Sequential(start, ops) && ops != []
    ensures var n := |ops| - 1;
            && Sequential(start, ops[..n]) && start <= ops[n].at <= End(ops[n])
            && IsOver(ops[..n], ops[n].at)
  {
  }

  /** The day the quota was made, or one on which the class has looked at the clock: on it nothing is due for a reset any more. */
  ghost predicate IsSettledDay(nm: Midnight, start: Time, own: seq<Op>, day: Time) {
    day == nm(start) || exists j :: 0 <= j < |own| && !own[j].Release? && nm(own[j].at) == day
  }

  /** No midnight falls between the two readings, or nothing can be due for a reset at the first one. */
  ghost predicate IsSteady(nm: Midnight, start: Time, own: seq<Op>, i: nat)
    requires i < |own|
  {
    own[i].Release? || nm(own[i].at) == nm(own[i].again) || IsSettledDay(nm, start, own[..i], nm(own[i].at))
  }

  ghost predicate AllSteady(nm: Midnight, start: Time, own: seq<Op>) {
    forall i :: 0 <= i < |own| ==> IsSteady(nm, start, own, i)
  }

  /** Operations in order, those of one class steady. The other class may straddle midnights as it likes. */
  ghost predicate InOrder(nm: Midnight, start: Time, ops: seq<Op>, c: Class) {
    Sequential(start, ops) && AllSteady(nm, start, Only(ops, c))
  }

  lemma SteadyFront(nm: Midnight, start: Time, own: seq<Op>, n: nat)
    requires AllSteady(nm, start, own) && n <= |own|
    ensures AllSteady(nm, start, own[..n])
  {
    forall i | 0 <= i < n ensures IsSteady(nm, start, own[..n], i) {
      assert IsSteady(nm, start, own, i) && own[..n][..i] == own[..i];
    }
  }

  lemma InOrderFront(nm: Midnight, start: Time, ops: seq<Op>, c: Class)
    requires InOrder(nm, start, ops, c) && ops != []
    ensures InOrder(nm, start, ops[..|ops| - 1], c)
    ensures var n := |ops| - 1;
            IsOf(ops[n], c) && !ops[n].Release? ==>
              nm(ops[n].at) == nm(ops[n].again) || IsSettledDay(nm, start, Only(ops[..n], c), nm(ops[n].at))
  {
    var n := |ops| - 1;
    var own, kept := Only(ops, c), Only(ops[..n], c);
    if IsOf(ops[n], c) {
      assert own[..|kept|] == kept;
      SteadyFront(nm, start, own, |kept|);
      assert IsSteady(nm, start, own, |kept|);
    }
  }

  function Start(nm: Midnight, start: Time): Counters {
    Counters(nm(start), map[])
  }

  // ---- the reference: one counter per class, reset exactly at midnight ----

  datatype Eager = Eager(day: Time, used: int)

  function Roll(nm: Midnight, e: Eager, at: Time): Eager {
    if nm(at) == e.day then e else Eager(nm(at), 0)
  }

  function EagerApply(nm: Midnight, budget: int, e: Eager, op: Op): (Eager, Result) {
    var r := Roll(nm, e, op.at);
    match op
    case Reserve(_, _, _) => if r.used >= budget then (r, Refused) else (r.(used := r.used + 1), Granted)
    case Release(_, _, _) => (if r.used > 0 then r.(used := r.used - 1) else r, Refunded)
    case Remaining(_, _, _) => (r, Left(if budget - r.used > 0 then budget - r.used else 0))
    case Peek(_, _) => (r, Peeked)
  }

  predicate IsOf(op: Op, c: Class) {
    !op.Peek? && op.c == c
  }

  /** The operations of one class, in order. */
  function Only(ops: seq<Op>, c: Class): seq<Op> {
    if ops == [] then []
    else if IsOf(ops[|ops| - 1], c) then Only(ops[..|ops| - 1], c) + [ops[|ops| - 1]]
    else Only(ops[..|ops| - 1], c)
  }

  function EagerAfter(nm: Midnight, budget: int, e: Eager, ops: seq<Op>): Eager {
    if ops == [] then e else EagerApply(nm, budget, EagerAfter(nm, budget, e, ops[..|ops| - 1]), ops[|ops| - 1]).0
  }

  /** What the operations of one class return in the shared quota. */
  function ResultsOf(nm: Midnight, budget: map<Class, int>, q: Counters, ops: seq<Op>, c: Class): seq<Result> {
    if ops == [] then []
    else
      var n := |ops| - 1;
      if IsOf(ops[n], c) then ResultsOf(nm, budget, q, ops[..n], c) + [ResultAt(nm, budget, q, ops, n)]
      else ResultsOf(nm, budget, q, ops[..n], c)
  }

  /** What they return from a counter of their own. */
  function EagerResults(nm: Midnight, budget: int, e: Eager, ops: seq<Op>): seq<Result> {
    if ops == [] then []
    else
      var n := |ops| - 1;
      EagerResults(nm, budget, e, ops[..n]) + [EagerApply(nm, budget, EagerAfter(nm, budget, e, ops[..n]), ops[n]).1]
  }

  // ---- lazy and eager agree ----

  /** Calls counted against the class right now: a counter past its midnight counts nothing. */
  function InForce(q: Counters, c: Class, now: Time): int {
    if q.resetAt <= now then 0 else Used(q, c)
  }

  function EagerInForce(nm: Midnight, e: Eager, now: Time): int {
    if nm(now) == e.day then e.used else 0
  }

  ghost predicate Tracks(nm: Midnight, q: Counters, e: Eager, c: Class, now: Time) {
    && (q.resetAt <= now || q.resetAt == nm(now))
    && (e.day <= now || e.day == nm(now))
    && Used(q, c) >= 0 && e.used >= 0
    && InForce(q, c, now) == EagerInForce(nm, e, now)
  }

  lemma TracksLater(nm: Midnight, q: Counters, e: Eager, c: Class, t: Time, u: Time)
    requires IsCalendar(nm) && Tracks(nm, q, e, c, t) && t <= u
    ensures Tracks(nm, q, e, c, u)
  {
    assert u < nm(u);
    if u < nm(t) {
      assert nm(u) == nm(t);
    }
  }

  /** The counters are those of the current day, or of one that is over. */
  ghost predicate IsCurrent(nm: Midnight, q: Counters, now: Time) {
    q.resetAt <= now || q.resetAt == nm(now)
  }

  ghost predicate Fresh(nm: Midnight, q: Counters, c: Class, now: Time) {
    IsCurrent(nm, q, now) && Used(q, c) >= 0
  }

  lemma StepStaysCurrent(nm: Midnight, budget: map<Class, int>, q: Counters, c: Class, op: Op, now: Time)
    requires IsCalendar(nm) && Fresh(nm, q, c, op.at) && Used(q, c) <= Allowance(budget, c) && op.at <= End(op) <= now
    ensures var q' := Apply(nm, budget, q, op).0;
            Fresh(nm, q', c, now) && Used(q', c) <= Allowance(budget, c) && q.resetAt <= q'.resetAt
  {
    assert now < nm(now) && End(op) < nm(End(op)) && op.at < nm(op.at);
    assert now < nm(End(op)) ==> nm(now) == nm(End(op));
    assert now < nm(op.at) ==> nm(now) == nm(op.at);
  }

  /** Whatever falls on whichever side of midnight, the counters are never ahead of the clock or over the budget. */
  lemma {:induction false} CountersAreCurrent(nm: Midnight, budget: map<Class, int>, start: Time, ops: seq<Op>, c: Class, now: Time)
    requires IsCalendar(nm) && Sequential(start, ops) && start <= now
    requires IsOver(ops, now)
    ensures Fresh(nm, After(nm, budget, Start(nm, start), ops), c, now)
    ensures Used(After(nm, budget, Start(nm, start), ops), c) <= Allowance(budget, c)
  {
    if ops == [] {
      assert now < nm(start) ==> nm(now) == nm(start);
    } else {
      var n := |ops| - 1;
      assert n > 0 ==> End(ops[n - 1]) <= ops[n].at;
      CountersAreCurrent(nm, budget, start, ops[..n], c, ops[n].at);
      StepStaysCurrent(nm, budget, After(nm, budget, Start(nm, start), ops[..n]), c, ops[n], now);
    }
  }

  /** Looking at the clock leaves counters that are good for that day. */
  lemma AskingReaches(nm: Midnight, budget: map<Class, int>, q: Counters, op: Op)
    requires IsCalendar(nm) && IsCurrent(nm, q, op.at) && op.at <= End(op) && !op.Release?
    ensures nm(op.at) <= Apply(nm, budget, q, op).0.resetAt
  {
    assert op.at < nm(op.at) && op.again < nm(op.again);
    assert op.again < nm(op.at) ==> nm(op.again) == nm(op.at);
  }

  lemma {:induction false} SettledDayIsReached(nm: Midnight, budget: map<Class, int>, start: Time, ops: seq<Op>, c: Class, day: Time)
    requires IsCalendar(nm) && Sequential(start, ops) && IsSettledDay(nm, start, Only(ops, c), day)
    ensures day <= After(nm, budget, Start(nm, start), ops).resetAt
  {
    if ops != [] {
      var n := |ops| - 1;
      var front, op := ops[..n], ops[n];
      var q := After(nm, budget, Start(nm, start), front);
      assert n > 0 ==> End(ops[n - 1]) <= op.at;
      CountersAreCurrent(nm, budget, start, front, c, op.at);
      StepStaysCurrent(nm, budget, q, c, op, End(op));
      if IsSettledDay(nm, start, Only(front, c), day) {
        SettledDayIsReached(nm, budget, start, front, c, day);
      } else {
        AskingReaches(nm, budget, q, op);
      }
    }
  }

  /** What the two readings of an operation in order can do. */
  lemma NothingDue(nm: Midnight, budget: map<Class, int>, start: Time, ops: seq<Op>, c: Class)
    requires IsCalendar(nm) && InOrder(nm, start, ops, c) && ops != [] && IsOf(ops[|ops| - 1], c)
    ensures var op := ops[|ops| - 1];
            op.Release? || nm(op.at) == nm(op.again) || op.at < After(nm, budget, Start(nm, start), ops[..|ops| - 1]).resetAt
  {
    var n := |ops| - 1;
    InOrderFront(nm, start, ops, c);
    if !ops[n].Release? && nm(ops[n].at) != nm(ops[n].again) {
      SettledDayIsReached(nm, budget, start, ops[..n], c, nm(ops[n].at));
      assert ops[n].at < nm(ops[n].at);
    }
  }

  /** One operation of the class, at a moment when both sides agree. */
  lemma StepTracks(nm: Midnight, budget: map<Class, int>, q: Counters, e: Eager, c: Class, op: Op)
    requires IsCalendar(nm) && Tracks(nm, q, e, c, op.at) && IsOf(op, c)
    requires op.Release? || nm(op.at) == nm(op.again) || op.at < q.resetAt
    ensures Tracks(nm, Apply(nm, budget, q, op).0, EagerApply(nm, Budget(budget, c), e, op).0, c, op.at)
    ensures Apply(nm, budget, q, op).1 == EagerApply(nm, Budget(budget, c), e, op).1
  {
    assert op.at < nm(op.at);
  }

  /** One operation of another class changes nothing for this one, even with a midnight between its readings. */
  lemma OtherClassStep(nm: Midnight, budget: map<Class, int>, q: Counters, c: Class, op: Op, now: Time)
    requires IsCalendar(nm) && !IsOf(op, c) && op.at <= End(op) <= now
    requires IsCurrent(nm, q, now) && Used(q, c) >= 0
    ensures var q' := Apply(nm, budget, q, op).0;
            IsCurrent(nm, q', now) && Used(q', c) >= 0 && InForce(q', c, now) == InForce(q, c, now)
  {
    assert now < nm(now) && End(op) < nm(End(op));
    if now < nm(End(op)) {
      assert nm(now) == nm(End(op));
    }
  }

  /** The shared counters hold for the class, and have answered it, what a counter of its own would. */
  ghost predicate LazyIsEager(nm: Midnight, budget: map<Class, int>, start: Time, ops: seq<Op>, c: Class, now: Time) {
    var q, e, b := Start(nm, start), Eager(nm(start), 0), Budget(budget, c);
    && Tracks(nm, After(nm, budget, q, ops), EagerAfter(nm, b, e, Only(ops, c)), c, now)
    && ResultsOf(nm, budget, q, ops, c) == EagerResults(nm, b, e, Only(ops, c))
  }

  lemma OwnStepIsEager(nm: Midnight, budget: map<Class, int>, start: Time, front: seq<Op>, op: Op, c: Class, now: Time)
    requires IsCalendar(nm) && IsOf(op, c) && op.at <= now && LazyIsEager(nm, budget, start, front, c, op.at)
    requires op.Release? || nm(op.at) == nm(op.again) || op.at < After(nm, budget, Start(nm, start), front).resetAt
    ensures LazyIsEager(nm, budget, start, front + [op], c, now)
  {
    var q, e, b := Start(nm, start), Eager(nm(start), 0), Budget(budget, c);
    Extend(nm, budget, q, front, op);
    StepTracks(nm, budget, After(nm, budget, q, front), EagerAfter(nm, b, e, Only(front, c)), c, op);
    assert (Only(front, c) + [op])[..|Only(front, c)|] == Only(front, c);
    TracksLater(nm, After(nm, budget, q, front + [op]), EagerAfter(nm, b, e, Only(front, c) + [op]), c, op.at, now);
  }

  lemma OtherStepIsEager(nm: Midnight, budget: map<Class, int>, start: Time, front: seq<Op>, op: Op, c: Class, now: Time)
    requires IsCalendar(nm) && !IsOf(op, c) && op.at <= End(op) <= now && LazyIsEager(nm, budget, start, front, c, now)
    ensures LazyIsEager(nm, budget, start, front + [op], c, now)
  {
    var q := Start(nm, start);
    Extend(nm, budget, q, front, op);
    OtherClassStep(nm, budget, After(nm, budget, q, front), c, op, now);
  }

  lemma LastStepIsEager(nm: Midnight, budget: map<Class, int>, start: Time, ops: seq<Op>, c: Class, now: Time)
    requires IsCalendar(nm) && InOrder(nm, start, ops, c) && ops != [] && End(ops[|ops| - 1]) <= now
    requires var n := |ops| - 1;
             LazyIsEager(nm, budget, start, ops[..n], c, if IsOf(ops[n], c) then ops[n].at else now)
    ensures LazyIsEager(nm, budget, start, ops, c, now)
  {
    var n := |ops| - 1;
    SequentialFront(start, ops);
    assert ops == ops[..n] + [ops[n]];
    if IsOf(ops[n], c) {
      NothingDue(nm, budget, start, ops, c);
      OwnStepIsEager(nm, budget, start, ops[..n], ops[n], c, now);
    } else {
      OtherStepIsEager(nm, budget, start, ops[..n], ops[n], c, now);
    }
  }

  /** The lazily reset counter of a class holds what one reset exactly at midnight would hold. */
  lemma {:induction false} LazyTracksEager(nm: Midnight, budget: map<Class, int>, start: Time, ops: seq<Op>, c: Class, now: Time)
    requires IsCalendar(nm) && InOrder(nm, start, ops, c) && start <= now
    requires IsOver(ops, now)
    ensures LazyIsEager(nm, budget, start, ops, c, now)
  {
    if ops == [] {
      assert start < nm(start);
      TracksLater(nm, Start(nm, start), Eager(nm(start), 0), c, start, now);
    } else {
      var n := |ops| - 1;
      InOrderFront(nm, start, ops, c);
      SequentialFront(start, ops);
      LazyTracksEager(nm, budget, start, ops[..n], c, if IsOf(ops[n], c) then ops[n].at else now);
      LastStepIsEager(nm, budget, start, ops, c, now);
    }
  }

  lemma {:induction false} OnlyTwice(ops: seq<Op>, c: Class)
    ensures Only(Only(ops, c), c) == Only(ops, c)
  {
    if ops != [] {
      OnlyTwice(ops[..|ops| - 1], c);
      if IsOf(ops[|ops| - 1], c) {
        assert Only(ops, c)[..|Only(ops, c)| - 1] == Only(ops[..|ops| - 1], c);
      }
    }
  }

  /** The operations of the class are some of all of them, still in order and over by the last. */
  ghost predicate OnlyInOrder(start: Time, ops: seq<Op>, c: Class) {
    && Sequential(start, Only(ops, c))
    && forall op :: op in Only(ops, c) ==> op in ops && IsOf(op, c) && End(op) <= End(ops[|ops| - 1])
  }

  lemma {:induction false} OnlySequential(start: Time, ops: seq<Op>, c: Class)
    requires Sequential(start, ops)
    ensures OnlyInOrder(start, ops, c)
  {
    if ops != [] {
      var n := |ops| - 1;
      SequentialFront(start, ops);
      OnlySequential(start, ops[..n], c);
      OnlyNext(start, ops[..n], ops[n], c);
      assert ops == ops[..n] + [ops[n]];
    }
  }

  lemma OnlyNext(start: Time, front: seq<Op>, op: Op, c: Class)
    requires OnlyInOrder(start, front, c) && start <= op.at <= End(op) && IsOver(front, op.at)
    ensures OnlyInOrder(start, front + [op], c)
  {
    assert (front + [op])[..|front|] == front;
    AppendedSequential(start, Only(front, c), op);
  }

  lemma AppendedSequential(start: Time, kept: seq<Op>, op: Op)
    requires Sequential(start, kept) && start <= op.at <= End(op) && forall k :: k in kept ==> End(k) <= op.at
    ensures Sequential(start, kept + [op])
  {
    assert forall i :: 0 <= i < |kept| ==> kept[i] in kept;
  }

  /** What the class is answered does not depend on what the other class does. */
  ghost predicate IsIndependent(nm: Midnight, budget: map<Class, int>, start: Time, ops: seq<Op>, c: Class) {
    ResultsOf(nm, budget, Start(nm, start), ops, c) == ResultsOf(nm, budget, Start(nm, start), Only(ops, c), c)
  }

  /**
   The classes cannot starve each other: what the operations of one class return
   does not depend on the operations of the other, although any of them may be the
   one that resets both counters, and refunds reset nothing. A midnight between two
   readings does no harm once the class has looked at the clock on the day before.
   */
  lemma ClassesDoNotInterfere(nm: Midnight, budget: map<Class, int>, start: Time, ops: seq<Op>, c: Class)
    requires IsCalendar(nm) && InOrder(nm, start, ops, c)
    ensures IsIndependent(nm, budget, start, ops, c)
  {
    OnlySequential(start, ops, c);
    OnlyTwice(ops, c);
    var own := Only(ops, c);
    assert forall op :: op in own ==> start <= End(op);
    LazyTracksEager(nm, budget, start, ops, c, if ops == [] then start else End(ops[|ops| - 1]));
    LazyTracksEager(nm, budget, start, own, c, if own == [] then start else End(own[|own| - 1]));
  }

  // ---- the guard on the readings is exact ----

  function OtherClass(c: Class): Class {
    if c == ClassPoll then ClassSearch else ClassPoll
  }

  /**
   The other class looks, this class reserves with the given readings, the other
   class looks again on the later day, and this class uses up its budget there.
   */
  function LookingBefore(c: Class, at: Time, again: Time, n: nat): seq<Op> {
    LookingHead(c, at, again) + Reserves(c, seq(n, i => Reading(again, again)))
  }

  function LookingHead(c: Class, at: Time, again: Time): seq<Op> {
    [Op.Remaining(OtherClass(c), at, at), Op.Reserve(c, at, again), Op.Remaining(OtherClass(c), again, again)]
  }

  lemma {:induction false} AfterSplit(nm: Midnight, budget: map<Class, int>, q: Counters, a: seq<Op>, b: seq<Op>)
    ensures After(nm, budget, q, a + b) == After(nm, budget, After(nm, budget, q, a), b)
    decreases |b|
  {
    if b == [] {
      assert a + b == a;
    } else {
      var n := |b| - 1;
      AfterSplit(nm, budget, q, a, b[..n]);
      assert (a + b)[..|a + b| - 1] == a + b[..n];
    }
  }

  lemma {:induction false} OnlySplit(a: seq<Op>, b: seq<Op>, c: Class)
    ensures Only(a + b, c) == Only(a, c) + Only(b, c)
    decreases |b|
  {
    if b == [] {
      assert a + b == a;
    } else {
      var n := |b| - 1;
      OnlySplit(a, b[..n], c);
      assert (a + b)[..|a + b| - 1] == a + b[..n];
    }
  }

  lemma {:induction false} OnlyReserves(c: Class, later: seq<Reading>)
    ensures Only(Reserves(c, later), c) == Reserves(c, later)
  {
    if later != [] {
      OnlyReserves(c, later[..|later| - 1]);
      assert Reserves(c, later)[..|later| - 1] == Reserves(c, later[..|later| - 1]);
    }
  }

  /** The last answer of a trace that ends with reservations is the last of theirs. */
  lemma LastAnswer(nm: Midnight, budget: map<Class, int>, q: Counters, a: seq<Op>, c: Class, later: seq<Reading>)
    requires later != []
    ensures var ops := a + Reserves(c, later);
            EndsIn(ResultsOf(nm, budget, q, ops, c), ResultAt(nm, budget, After(nm, budget, q, a), Reserves(c, later), |later| - 1))
  {
    var n := |later| - 1;
    var rest := Reserves(c, later);
    assert a + rest == a + rest[..n] + [rest[n]];
    AfterSplit(nm, budget, q, a, rest[..n]);
    Extend(nm, budget, q, a + rest[..n], rest[n]);
  }

  lemma AfterLooking(nm: Midnight, budget: map<Class, int>, q: Counters, c: Class, at: Time, again: Time)
    requires IsCalendar(nm) && Budget(budget, c) > 0 && q.resetAt <= at && nm(at) <= again
    ensures After(nm, budget, q, LookingHead(c, at, again)) == Counters(nm(again), map[])
  {
    var ops := LookingHead(c, at, again);
    assert at < nm(at);
    assert ops[..0] == [] && ops[..1] == [] + [ops[0]] && ops[..2] == ops[..1] + [ops[1]] && ops == ops[..2] + [ops[2]];
    Extend(nm, budget, q, [], ops[0]);
    Extend(nm, budget, q, ops[..1], ops[1]);
    Extend(nm, budget, q, ops[..2], ops[2]);
    assert After(nm, budget, q, ops[..1]) == Counters(nm(at), map[]);
    assert After(nm, budget, q, ops[..2]).resetAt == nm(at);
  }

  lemma AfterAlone(nm: Midnight, budget: map<Class, int>, q: Counters, c: Class, at: Time, again: Time)
    requires IsCalendar(nm) && Budget(budget, c) > 0 && q.resetAt <= at
    ensures After(nm, budget, q, [Op.Reserve(c, at, again)]) == Counters(nm(again), map[c := 1])
  {
    Extend(nm, budget, q, [], Op.Reserve(c, at, again));
    assert [] + [Op.Reserve(c, at, again)] == [Op.Reserve(c, at, again)];
  }

  lemma OnlyWithoutLooking(c: Class, at: Time, again: Time, n: nat)
    ensures Only(LookingBefore(c, at, again, n), c)
         == [Op.Reserve(c, at, again)] + Reserves(c, seq(n, i => Reading(again, again)))
  {
    var head, later := LookingHead(c, at, again), seq(n, i => Reading(again, again));
    OnlySplit(head, Reserves(c, later), c);
    OnlyReserves(c, later);
    assert head[..2][..1] == [head[0]] && [head[0]][..0] == [] && head[..2] == [head[0], head[1]];
    assert Only([head[0]], c) == [];
    assert Only(head[..2], c) == [head[1]];
    assert Only(head, c) == [head[1]];
  }

  /** What has happened to the class so far: its own operations, in order and steady, all over by then. */
  ghost predicate IsHistory(nm: Midnight, start: Time, own: seq<Op>, c: Class, now: Time) {
    && Sequential(start, own) && AllSteady(nm, start, own) && (forall op :: op in own ==> IsOf(op, c))
    && start <= now && IsOver(own, now)
  }

  lemma {:induction false} OnlyOwn(own: seq<Op>, c: Class)
    requires forall op :: op in own ==> IsOf(op, c)
    ensures Only(own, c) == own
  {
    if own != [] {
      OnlyOwn(own[..|own| - 1], c);
    }
  }

  /** Steady operations set the counters for days they have looked at, and no others. */
  lemma {:induction false} ResetOnSettledDays(nm: Midnight, budget: map<Class, int>, start: Time, own: seq<Op>, c: Class, now: Time)
    requires IsCalendar(nm) && IsHistory(nm, start, own, c, now)
    ensures IsSettledDay(nm, start, own, After(nm, budget, Start(nm, start), own).resetAt)
  {
    if own != [] {
      var n := |own| - 1;
      var front, op := own[..n], own[n];
      assert n > 0 ==> End(own[n - 1]) <= op.at;
      SteadyFront(nm, start, own, n);
      ResetOnSettledDays(nm, budget, start, front, c, op.at);
      OnlyOwn(own, c);
      NothingDue(nm, budget, start, own, c);
      ResetMoved(nm, budget, After(nm, budget, Start(nm, start), front), op);
      assert own == front + [op];
      SettledExtended(nm, start, front, op, After(nm, budget, Start(nm, start), own).resetAt);
    }
  }

  lemma ResetMoved(nm: Midnight, budget: map<Class, int>, q: Counters, op: Op)
    ensures var q' := Apply(nm, budget, q, op).0;
            q'.resetAt == q.resetAt || (!op.Release? && q.resetAt <= op.at && q'.resetAt == nm(op.again))
  {
  }

  lemma SettledExtended(nm: Midnight, start: Time, front: seq<Op>, op: Op, day: Time)
    requires IsSettledDay(nm, start, front, day) || (!op.Release? && nm(op.at) == day)
    ensures IsSettledDay(nm, start, front + [op], day)
  {
    var own := front + [op];
    assert own[|front|] == op;
    if IsSettledDay(nm, start, front, day) && day != nm(start) {
      var j :| 0 <= j < |front| && !front[j].Release? && nm(front[j].at) == day;
      assert own[j] == front[j];
    }
  }

  /** On a day that is not settled the first look finds the counters due. */
  lemma UnsettledIsDue(nm: Midnight, budget: map<Class, int>, start: Time, own: seq<Op>, c: Class, at: Time)
    requires IsCalendar(nm) && IsHistory(nm, start, own, c, at) && !IsSettledDay(nm, start, own, nm(at))
    ensures After(nm, budget, Start(nm, start), own).resetAt <= at
  {
    ResetOnSettledDays(nm, budget, start, own, c, at);
    CountersAreCurrent(nm, budget, start, own, c, at);
  }

  /**
   With a midnight between the readings of a reservation that finds the counters
   due, the call is charged to one day or the other depending on whether the other
   class had looked before, and the last call of the later day is granted or refused
   accordingly, whatever the budget and whatever the class did before.
   */
  lemma MidnightBetweenReadingsInterferes(nm: Midnight, budget: map<Class, int>, start: Time, own: seq<Op>, c: Class, at: Time,
                                          again: Time)
    requires IsCalendar(nm) && c in budget && budget[c] > 0 && IsHistory(nm, start, own, c, at)
    requires at <= again && nm(at) != nm(again) && !IsSettledDay(nm, start, own, nm(at))
    ensures !IsIndependent(nm, budget, start, own + LookingBefore(c, at, again, budget[c]), c)
  {
    var q0, looking := Start(nm, start), LookingBefore(c, at, again, Budget(budget, c));
    UnsettledIsDue(nm, budget, start, own, c, at);
    OnlyOwn(own, c);
    OnlySplit(own, looking, c);
    OnlyWithoutLooking(c, at, again, Budget(budget, c));
    assert again < nm(at) ==> nm(again) == nm(at);
    LastWithLooking(nm, budget, q0, own, c, at, again);
    LastAlone(nm, budget, q0, own, c, at, again);
    assert EndsIn(ResultsOf(nm, budget, q0, own + looking, c), Granted);
    assert EndsIn(ResultsOf(nm, budget, q0, Only(own + looking, c), c), Refused);
  }

  predicate EndsIn(answers: seq<Result>, r: Result) {
    answers != [] && answers[|answers| - 1] == r
  }

  lemma LastWithLooking(nm: Midnight, budget: map<Class, int>, q0: Counters, own: seq<Op>, c: Class, at: Time, again: Time)
    requires IsCalendar(nm) && Budget(budget, c) > 0 && After(nm, budget, q0, own).resetAt <= at && nm(at) <= again
    ensures EndsIn(ResultsOf(nm, budget, q0, own + LookingBefore(c, at, again, Budget(budget, c)), c), Granted)
  {
    var b, head := Budget(budget, c), LookingHead(c, at, again);
    var later := seq(b, i => Reading(again, again));
    assert own + LookingBefore(c, at, again, b) == own + head + Reserves(c, later);
    AfterSplit(nm, budget, q0, own, head);
    AfterLooking(nm, budget, After(nm, budget, q0, own), c, at, again);
    LastAnswer(nm, budget, q0, own + head, c, later);
    assert again < nm(again);
    ReservesCountUp(nm, budget, Counters(nm(again), map[]), c, later);
  }

  lemma LastAlone(nm: Midnight, budget: map<Class, int>, q0: Counters, own: seq<Op>, c: Class, at: Time, again: Time)
    requires IsCalendar(nm) && Budget(budget, c) > 0 && After(nm, budget, q0, own).resetAt <= at
    ensures var later := seq(Budget(budget, c), i => Reading(again, again));
            EndsIn(ResultsOf(nm, budget, q0, own + ([Op.Reserve(c, at, again)] + Reserves(c, later)), c), Refused)
  {
    var later, alone := seq(Budget(budget, c), i => Reading(again, again)), [Op.Reserve(c, at, again)];
    assert own + (alone + Reserves(c, later)) == own + alone + Reserves(c, later);
    AfterSplit(nm, budget, q0, own, alone);
    AfterAlone(nm, budget, After(nm, budget, q0, own), c, at, again);
    LastAnswer(nm, budget, q0, own + alone, c, later);
    assert again < nm(again);
    ReservesCountUp(nm, budget, Counters(nm(again), map[c := 1]), c, later);
  }

  /**
   A trace, other class included, in which the class first does what its history
   says, then looks at the clock with the given readings, and is steady from then on.
   */
  ghost predicate GoesOn(nm: Midnight, start: Time, ops: seq<Op>, own: seq<Op>, c: Class, at: Time, again: Time) {
    var all := Only(ops, c);
    && Sequential(start, ops) && |own| < |all| && all[..|own|] == own
    && !all[|own|].Release? && all[|own|].at == at && all[|own|].again == again
    && forall i :: |own| < i < |all| ==> IsSteady(nm, start, all, i)
  }

  lemma GoesOnInOrder(nm: Midnight, start: Time, ops: seq<Op>, own: seq<Op>, c: Class, at: Time, again: Time)
    requires IsHistory(nm, start, own, c, at) && GoesOn(nm, start, ops, own, c, at, again)
    requires nm(at) == nm(again) || IsSettledDay(nm, start, own, nm(at))
    ensures InOrder(nm, start, ops, c)
  {
    var all := Only(ops, c);
    forall i | 0 <= i < |all| ensures IsSteady(nm, start, all, i) {
      if i < |own| {
        assert IsSteady(nm, start, own, i) && own[..i] == all[..i] && own[i] == all[i];
      }
    }
  }

  /** Operations of the class appended to its history, the first with the given readings and the rest with one reading each. */
  lemma AppendedGoesOn(nm: Midnight, start: Time, own: seq<Op>, more: seq<Op>, mine: seq<Op>, c: Class, at: Time, again: Time)
    requires IsHistory(nm, start, own, c, at) && Sequential(start, more) && more != [] && mine == Only(more, c)
    requires mine != [] && mine[0] == Op.Reserve(c, at, again)
    requires forall i :: 1 <= i < |mine| ==> !mine[i].Release? && mine[i].again == mine[i].at
    requires forall op :: op in more ==> at <= op.at
    ensures GoesOn(nm, start, own + more, own, c, at, again)
  {
    OnlyOwn(own, c);
    OnlySplit(own, more, c);
    SequentialJoin(start, own, more, at);
    StartsWith(nm, start, own, mine);
  }

  lemma StartsWith(nm: Midnight, start: Time, own: seq<Op>, more: seq<Op>)
    requires more != []
    requires forall i :: 1 <= i < |more| ==> !more[i].Release? && more[i].again == more[i].at
    ensures (own + more)[..|own|] == own && (own + more)[|own|] == more[0]
    ensures forall i :: |own| < i < |own + more| ==> IsSteady(nm, start, own + more, i)
  {
    forall i | |own| < i < |own + more| ensures IsSteady(nm, start, own + more, i) {
      assert (own + more)[i] == more[i - |own|];
    }
  }

  lemma LookingGoesOn(nm: Midnight, start: Time, own: seq<Op>, c: Class, at: Time, again: Time, n: nat)
    requires IsHistory(nm, start, own, c, at) && at <= again
    ensures GoesOn(nm, start, own + LookingBefore(c, at, again, n), own, c, at, again)
  {
    OnlyWithoutLooking(c, at, again, n);
    LookingIsSequential(start, c, at, again, n);
    var mine := [Op.Reserve(c, at, again)] + Reserves(c, seq(n, i => Reading(again, again)));
    AppendedGoesOn(nm, start, own, LookingBefore(c, at, again, n), mine, c, at, again);
  }

  lemma LookingIsSequential(start: Time, c: Class, at: Time, again: Time, n: nat)
    requires start <= at <= again
    ensures Sequential(start, LookingBefore(c, at, again, n))
    ensures forall op :: op in LookingBefore(c, at, again, n) ==> at <= op.at
  {
    var ops := LookingBefore(c, at, again, n);
    forall i | 3 <= i < |ops| ensures ops[i] == Op.Reserve(c, again, again) {
    }
  }

  lemma SequentialJoin(start: Time, a: seq<Op>, b: seq<Op>, t: Time)
    requires Sequential(start, a) && Sequential(start, b) && forall op :: op in b ==> t <= op.at
    requires a != [] ==> End(a[|a| - 1]) <= t
    ensures Sequential(start, a + b)
  {
    var ops := a + b;
    assert forall i :: 0 <= i < |a| ==> End(a[i]) <= t by {
      forall i | 0 <= i < |a| ensures End(a[i]) <= t {
        assert i < |a| - 1 ==> End(a[i]) <= a[|a| - 1].at <= End(a[|a| - 1]);
      }
    }
    forall i, j | 0 <= i < j < |ops| ensures End(ops[i]) <= ops[j].at {
      assert j >= |a| ==> ops[j] == b[j - |a|];
      assert i >= |a| ==> ops[i] == b[i - |a|];
    }
  }

  /**
   Exactly when a look at the clock is harmless, given what the class has done
   before it: with any positive budget, the answers to the class are independent of
   the other class in every trace that goes on that way if and only if no midnight
   lies between the two readings, or the class had already looked at the clock on
   the day of the first one (or the quota was made on it).
   */
  lemma IndependentExactlyWhenSteady(nm: Midnight, budget: map<Class, int>, start: Time, own: seq<Op>, c: Class, at: Time, again: Time)
    requires IsCalendar(nm) && c in budget && budget[c] > 0 && IsHistory(nm, start, own, c, at) && at <= again
    ensures (forall ops :: GoesOn(nm, start, ops, own, c, at, again) ==> IsIndependent(nm, budget, start, ops, c))
       <==> (nm(at) == nm(again) || IsSettledDay(nm, start, own, nm(at)))
  {
    if nm(at) == nm(again) || IsSettledDay(nm, start, own, nm(at)) {
      forall ops | GoesOn(nm, start, ops, own, c, at, again) ensures IsIndependent(nm, budget, start, ops, c) {
        GoesOnInOrder(nm, start, ops, own, c, at, again);
        ClassesDoNotInterfere(nm, budget, start, ops, c);
      }
    } else {
      MidnightBetweenReadingsInterferes(nm, budget, start, own, c, at, again);
      LookingGoesOn(nm, start, own, c, at, again, Budget(budget, c));
    }
  }

  lemma Extend(nm: Midnight, budget: map<Class, int>, q: Counters, ops: seq<Op>, op: Op)
    ensures After(nm, budget, q, ops + [op]) == Apply(nm, budget, After(nm, budget, q, ops), op).0
    ensures ResultAt(nm, budget, q, ops + [op], |ops|) == Apply(nm, budget, After(nm, budget, q, ops), op).1
    ensures forall c :: Only(ops + [op], c) == if IsOf(op, c) then Only(ops, c) + [op] else Only(ops, c)
    ensures forall c :: ResultsOf(nm, budget, q, ops + [op], c)
              == if IsOf(op, c) then ResultsOf(nm, budget, q, ops, c) + [Apply(nm, budget, After(nm, budget, q, ops), op).1]
                 else ResultsOf(nm, budget, q, ops, c)
  {
    assert (ops + [op])[..|ops|] == ops;
  }

  // ---- accounting ----

  /** The budget as a number of calls. */
  function Allowance(budget: map<Class, int>, c: Class): nat {
    if Budget(budget, c) > 0 then Budget(budget, c) else 0
  }

  /** Reservations granted to the class on the day that ends at `day`. */
  function GrantsOn(nm: Midnight, budget: map<Class, int>, q: Counters, ops: seq<Op>, c: Class, day: Time): nat {
    if ops == [] then 0
    else
      var n := |ops| - 1;
      GrantsOn(nm, budget, q, ops[..n], c, day)
      + (if ops[n].Reserve? && IsOf(ops[n], c) && nm(ops[n].at) == day && ResultAt(nm, budget, q, ops, n) == Granted
         then 1 else 0)
  }

  /** Refunds of that day that found something to give back. */
  function RefundsOn(nm: Midnight, budget: map<Class, int>, q: Counters, ops: seq<Op>, c: Class, day: Time): nat {
    if ops == [] then 0
    else
      var n := |ops| - 1;
      RefundsOn(nm, budget, q, ops[..n], c, day)
      + (if ops[n].Release? && IsOf(ops[n], c) && nm(ops[n].at) == day
            && InForce(After(nm, budget, q, ops[..n]), c, ops[n].at) > 0
         then 1 else 0)
  }

  lemma {:induction false} NothingYetOn(nm: Midnight, budget: map<Class, int>, q: Counters, ops: seq<Op>, c: Class, day: Time)
    requires forall i :: 0 <= i < |ops| ==> nm(ops[i].at) != day
    ensures GrantsOn(nm, budget, q, ops, c, day) == 0 && RefundsOn(nm, budget, q, ops, c, day) == 0
  {
    if ops != [] {
      NothingYetOn(nm, budget, q, ops[..|ops| - 1], c, day);
    }
  }

  /** Time passing within a day changes nothing in force; at midnight everything expires. */
  lemma ForceOverTime(nm: Midnight, q: Counters, c: Class, t: Time, u: Time)
    requires IsCalendar(nm) && Fresh(nm, q, c, t) && t <= u
    ensures Fresh(nm, q, c, u)
    ensures nm(t) == nm(u) ==> InForce(q, c, u) == InForce(q, c, t)
    ensures nm(t) != nm(u) ==> InForce(q, c, u) == 0
  {
    assert u < nm(u) && t < nm(t);
    if u < nm(t) {
      assert nm(u) == nm(t);
    }
  }

  lemma StepForce(nm: Midnight, budget: map<Class, int>, q: Counters, c: Class, op: Op)
    requires IsCalendar(nm) && Fresh(nm, q, c, op.at) && IsOf(op, c)
    requires op.Release? || nm(op.at) == nm(op.again) || op.at < q.resetAt
    ensures var (q', r) := Apply(nm, budget, q, op);
            && Fresh(nm, q', c, op.at)
            && InForce(q', c, op.at)
               == InForce(q, c, op.at)
                  + (if op.Reserve? && r == Granted then 1 else 0)
                  - (if op.Release? && InForce(q, c, op.at) > 0 then 1 else 0)
            && (InForce(q, c, op.at) <= Allowance(budget, c) ==> InForce(q', c, op.at) <= Allowance(budget, c))
  {
    assert op.at < nm(op.at);
  }

  /**
   On every day the calls counted against a class are the reservations granted that
   day less the refunds that found something to give back, and never exceed the
   budget.
   */
  lemma {:induction false} CountersAreExact(nm: Midnight, budget: map<Class, int>, start: Time, ops: seq<Op>, c: Class, now: Time)
    requires IsCalendar(nm) && InOrder(nm, start, ops, c) && start <= now
    requires IsOver(ops, now)
    ensures IsExactly(nm, budget, start, ops, c, now)
  {
    var q0 := Start(nm, start);
    if ops == [] {
      ForceOverTime(nm, q0, c, start, now);
    } else {
      var n := |ops| - 1;
      var op, front := ops[n], ops[..n];
      InOrderFront(nm, start, ops, c);
      assert front != [] ==> End(front[n - 1]) <= op.at;
      if IsOf(op, c) {
        CountersAreExact(nm, budget, start, front, c, op.at);
        OwnStepIsExact(nm, budget, start, ops, c, now);
      } else {
        CountersAreExact(nm, budget, start, front, c, now);
        OtherClassStep(nm, budget, After(nm, budget, q0, front), c, op, now);
      }
    }
  }

  ghost predicate IsExactly(nm: Midnight, budget: map<Class, int>, start: Time, ops: seq<Op>, c: Class, now: Time) {
    var q := After(nm, budget, Start(nm, start), ops);
    && Fresh(nm, q, c, now)
    && InForce(q, c, now) == GrantsOn(nm, budget, Start(nm, start), ops, c, nm(now))
                             - RefundsOn(nm, budget, Start(nm, start), ops, c, nm(now))
    && 0 <= InForce(q, c, now) <= (if c in budget && budget[c] > 0 then budget[c] else 0)
  }

  lemma OwnStepIsExact(nm: Midnight, budget: map<Class, int>, start: Time, ops: seq<Op>, c: Class, now: Time)
    requires IsCalendar(nm) && InOrder(nm, start, ops, c) && ops != [] && IsOf(ops[|ops| - 1], c)
    requires End(ops[|ops| - 1]) <= now && IsExactly(nm, budget, start, ops[..|ops| - 1], c, ops[|ops| - 1].at)
    ensures IsExactly(nm, budget, start, ops, c, now)
  {
    var n := |ops| - 1;
    var op, front, q0 := ops[n], ops[..n], Start(nm, start);
    NothingDue(nm, budget, start, ops, c);
    StepForce(nm, budget, After(nm, budget, q0, front), c, op);
    ForceOverTime(nm, After(nm, budget, q0, ops), c, op.at, now);
    if nm(op.at) != nm(now) {
      OtherDays(nm, start, ops, op.at, now);
      NothingYetOn(nm, budget, q0, ops, c, nm(now));
    }
  }

  /** When the day of the last operation is over, no operation belongs to the day that has begun. */
  lemma OtherDays(nm: Midnight, start: Time, ops: seq<Op>, last: Time, now: Time)
    requires IsCalendar(nm) && Sequential(start, ops) && ops != [] && ops[|ops| - 1].at == last <= now && nm(last) != nm(now)
    ensures forall i :: 0 <= i < |ops| ==> nm(ops[i].at) != nm(now)
  {
    forall i | 0 <= i < |ops| ensures nm(ops[i].at) != nm(now) {
      var t := ops[i].at;
      assert t <= last && now < nm(now);
      if last < nm(t) {
        assert nm(last) == nm(t);
      }
    }
  }

  /** A reservation that finds the counters due and sees midnight pass is granted on one day and counted on the next. */
  lemma StraddlerCountsLate(nm: Midnight, budget: map<Class, int>, start: Time, own: seq<Op>, c: Class, at: Time, again: Time)
    requires IsCalendar(nm) && Budget(budget, c) > 0 && IsHistory(nm, start, own, c, at)
    requires at <= again && nm(at) != nm(again) && !IsSettledDay(nm, start, own, nm(at))
    ensures var ops := own + [Op.Reserve(c, at, again)];
            && GoesOn(nm, start, ops, own, c, at, again)
            && InForce(After(nm, budget, Start(nm, start), ops), c, again) == 1
            && GrantsOn(nm, budget, Start(nm, start), ops, c, nm(again)) == 0
  {
    StraddlerGoesOn(nm, start, own, c, at, again);
    UnsettledIsDue(nm, budget, start, own, c, at);
    AfterSplit(nm, budget, Start(nm, start), own, [Op.Reserve(c, at, again)]);
    AfterAlone(nm, budget, After(nm, budget, Start(nm, start), own), c, at, again);
    assert again < nm(again);
    StraddlerIsNotOn(nm, budget, start, own + [Op.Reserve(c, at, again)], c, at, again);
  }

  lemma LoneIsSequential(start: Time, op: Op)
    requires start <= op.at <= End(op)
    ensures Sequential(start, [op])
  {
  }

  lemma StraddlerEnds(nm: Midnight, budget: map<Class, int>, start: Time, own: seq<Op>, c: Class, at: Time, again: Time)
    requires InForce(After(nm, budget, Start(nm, start), own + [Op.Reserve(c, at, again)]), c, again) == 1
    requires GrantsOn(nm, budget, Start(nm, start), own + [Op.Reserve(c, at, again)], c, nm(again)) == 0
    ensures var ops := own + [Op.Reserve(c, at, again)];
            IsOver(ops, again) && !IsExactly(nm, budget, start, ops, c, again)
  {
  }

  lemma ExactWhenSettled(nm: Midnight, budget: map<Class, int>, start: Time, ops: seq<Op>, own: seq<Op>, c: Class, at: Time,
                         again: Time, now: Time)
    requires IsCalendar(nm) && IsHistory(nm, start, own, c, at) && GoesOn(nm, start, ops, own, c, at, again)
    requires nm(at) == nm(again) || IsSettledDay(nm, start, own, nm(at))
    requires IsOver(ops, now)
    ensures IsExactly(nm, budget, start, ops, c, now)
  {
    GoesOnInOrder(nm, start, ops, own, c, at, again);
    assert ops != [] && start <= ops[|ops| - 1].at;
    CountersAreExact(nm, budget, start, ops, c, now);
  }

  lemma StraddlerGoesOn(nm: Midnight, start: Time, own: seq<Op>, c: Class, at: Time, again: Time)
    requires IsHistory(nm, start, own, c, at) && at <= again
    ensures GoesOn(nm, start, own + [Op.Reserve(c, at, again)], own, c, at, again)
  {
    var more := [Op.Reserve(c, at, again)];
    OnlyOwn(more, c);
    LoneIsSequential(start, more[0]);
    AppendedGoesOn(nm, start, own, more, more, c, at, again);
  }

  lemma StraddlerIsNotOn(nm: Midnight, budget: map<Class, int>, start: Time, ops: seq<Op>, c: Class, at: Time, again: Time)
    requires IsCalendar(nm) && Sequential(start, ops) && ops != [] && ops[|ops| - 1].at == at <= again && nm(at) != nm(again)
    ensures GrantsOn(nm, budget, Start(nm, start), ops, c, nm(again)) == 0
  {
    OtherDays(nm, start, ops, at, again);
    NothingYetOn(nm, budget, Start(nm, start), ops, c, nm(again));
  }

  /** The account of the class is right at every moment of every trace that goes on that way. */
  ghost predicate StaysRight(nm: Midnight, budget: map<Class, int>, start: Time, own: seq<Op>, c: Class, at: Time, again: Time) {
    forall ops, now :: GoesOn(nm, start, ops, own, c, at, again) && IsOver(ops, now) ==> IsExactly(nm, budget, start, ops, c, now)
  }

  lemma StraddlerIsWrong(nm: Midnight, budget: map<Class, int>, start: Time, own: seq<Op>, c: Class, at: Time, again: Time)
    requires IsCalendar(nm) && Budget(budget, c) > 0 && IsHistory(nm, start, own, c, at)
    requires at <= again && nm(at) != nm(again) && !IsSettledDay(nm, start, own, nm(at))
    ensures !StaysRight(nm, budget, start, own, c, at, again)
  {
    StraddlerCountsLate(nm, budget, start, own, c, at, again);
    StraddlerEnds(nm, budget, start, own, c, at, again);
  }

  lemma SettledIsRight(nm: Midnight, budget: map<Class, int>, start: Time, own: seq<Op>, c: Class, at: Time, again: Time)
    requires IsCalendar(nm) && IsHistory(nm, start, own, c, at) && (nm(at) == nm(again) || IsSettledDay(nm, start, own, nm(at)))
    ensures StaysRight(nm, budget, start, own, c, at, again)
  {
    forall ops, now | GoesOn(nm, start, ops, own, c, at, again) && IsOver(ops, now)
      ensures IsExactly(nm, budget, start, ops, c, now)
    {
      ExactWhenSettled(nm, budget, start, ops, own, c, at, again, now);
    }
  }

  /**
   Exactly when a look at the clock keeps the books of the class right, given what it
   has done before: the condition is the one that keeps the classes independent.
   */
  lemma CountersRightExactlyWhen(nm: Midnight, budget: map<Class, int>, start: Time, own: seq<Op>, c: Class, at: Time, again: Time)
    requires IsCalendar(nm) && c in budget && budget[c] > 0 && IsHistory(nm, start, own, c, at) && at <= again
    ensures StaysRight(nm, budget, start, own, c, at, again)
       <==> (nm(at) == nm(again) || IsSettledDay(nm, start, own, nm(at)))
  {
    if nm(at) == nm(again) || IsSettledDay(nm, start, own, nm(at)) {
      SettledIsRight(nm, budget, start, own, c, at, again);
    } else {
      StraddlerIsWrong(nm, budget, start, own, c, at, again);
    }
  }

  lemma PrefixAnswers(nm: Midnight, budget: map<Class, int>, q: Counters, a: seq<Op>, ops: seq<Op>, i: nat)
    requires a <= ops && i < |a|
    ensures ResultAt(nm, budget, q, ops, i) == ResultAt(nm, budget, q, a, i)
  {
    assert ops[..i] == a[..i] && ops[i] == a[i];
  }

  // ---- what Remaining promises ----

  datatype Reading = Reading(at: Time, again: Time)

  function Reserves(c: Class, later: seq<Reading>): seq<Op> {
    seq(|later|, i requires 0 <= i < |later| => Op.Reserve(c, later[i].at, later[i].again))
  }

  /** One reservation on the day of a counter that is up to date. */
  lemma ReserveCountsUp(nm: Midnight, budget: map<Class, int>, q: Counters, c: Class, r: Reading)
    requires r.at < q.resetAt
    ensures var (q', ok) := Apply(nm, budget, q, Op.Reserve(c, r.at, r.again));
            && q'.resetAt == q.resetAt
            && (LeftOf(budget, q, c) == 0 ==> ok == Refused && q' == q)
            && (LeftOf(budget, q, c) > 0 ==> ok == Granted && Used(q', c) == Used(q, c) + 1)
  {
  }

  /** Reservations on one day, with nothing in between, starting from such a counter. */
  lemma {:induction false} ReservesCountUp(nm: Midnight, budget: map<Class, int>, q: Counters, c: Class, later: seq<Reading>)
    requires forall i :: 0 <= i < |later| ==> later[i].at < q.resetAt
    ensures var end := After(nm, budget, q, Reserves(c, later));
            && end.resetAt == q.resetAt
            && Used(end, c) == Used(q, c) + if |later| <= LeftOf(budget, q, c) then |later| else LeftOf(budget, q, c)
    ensures forall i :: 0 <= i < |later| ==>
              ResultAt(nm, budget, q, Reserves(c, later), i) == if i < LeftOf(budget, q, c) then Granted else Refused
  {
    if later != [] {
      var n := |later| - 1;
      ReservesCountUp(nm, budget, q, c, later[..n]);
      var ops, front := Reserves(c, later), Reserves(c, later[..n]);
      assert ops[..n] == front;
      ReserveCountsUp(nm, budget, After(nm, budget, q, front), c, later[n]);
      forall i | 0 <= i < n ensures ResultAt(nm, budget, q, ops, i) == ResultAt(nm, budget, q, front, i) {
        PrefixAnswers(nm, budget, q, front, ops, i);
      }
    }
  }

  function LessBudget(budget: int, inForce: int): nat {
    if budget > inForce then budget - inForce else 0
  }

  /**
   Remaining is a promise: when it answers r, which is what the calls in force leave
   of the budget, the next r reservations of the class on the same day succeed and
   every one after them is refused, if nothing else is asked in between.
   */
  lemma RemainingIsExact(nm: Midnight, budget: map<Class, int>, start: Time, ops: seq<Op>, c: Class, at: Time, again: Time,
                         later: seq<Reading>)
    requires IsCalendar(nm) && Sequential(start, ops + [Op.Remaining(c, at, again)])
    requires forall i :: 0 <= i < |later| ==> later[i].at < nm(at)
    ensures var q := After(nm, budget, Start(nm, start), ops + [Op.Remaining(c, at, again)]);
            var r := ResultAt(nm, budget, Start(nm, start), ops + [Op.Remaining(c, at, again)], |ops|);
            && r.Left?
            && r.n == LessBudget(if c in budget then budget[c] else 0, InForce(After(nm, budget, Start(nm, start), ops), c, at))
            && forall i :: 0 <= i < |later| ==>
                 ResultAt(nm, budget, q, Reserves(c, later), i) == if i < r.n then Granted else Refused
  {
    var asked := ops + [Op.Remaining(c, at, again)];
    assert asked[..|ops|] == ops && asked[|ops|] == Op.Remaining(c, at, again);
    assert ops != [] ==> End(asked[|ops| - 1]) <= asked[|ops|].at;
    assert forall i :: 0 <= i < |ops| ==> ops[i] == asked[i];
    assert start <= asked[|ops|].at;
    CountersAreCurrent(nm, budget, start, ops, c, at);
    AskingReaches(nm, budget, After(nm, budget, Start(nm, start), ops), asked[|ops|]);
    ReservesCountUp(nm, budget, After(nm, budget, Start(nm, start), asked), c, later);
  }

  // ---- the budgets the quota was made with ----

  /** A reservation that finds the counters due leaves what it would have left of fresh ones. */
  lemma DueIsFresh(nm: Midnight, budget: map<Class, int>, q: Counters, c: Class, r: Reading)
    requires q.resetAt <= r.at < nm(r.again)
    ensures Apply(nm, budget, q, Op.Reserve(c, r.at, r.again))
         == Apply(nm, budget, Counters(nm(r.again), map[]), Op.Reserve(c, r.at, r.again))
  {
  }

  lemma {:induction false} SameFromFirst(nm: Midnight, budget: map<Class, int>, q: Counters, p: Counters, ops: seq<Op>)
    requires ops != [] && Apply(nm, budget, q, ops[0]) == Apply(nm, budget, p, ops[0])
    ensures After(nm, budget, q, ops) == After(nm, budget, p, ops)
  {
    var n := |ops| - 1;
    if n == 0 {
      assert ops[..0] == [];
    } else {
      SameFromFirst(nm, budget, q, p, ops[..n]);
    }
  }

  lemma SameAnswers(nm: Midnight, budget: map<Class, int>, q: Counters, p: Counters, ops: seq<Op>, i: nat)
    requires i < |ops| && Apply(nm, budget, q, ops[0]) == Apply(nm, budget, p, ops[0])
    ensures ResultAt(nm, budget, q, ops, i) == ResultAt(nm, budget, p, ops, i)
  {
    if i == 0 {
      assert ops[..0] == [];
    } else {
      SameFromFirst(nm, budget, q, p, ops[..i]);
    }
  }

  /** The counters are set for the day the quota was made or one on which an operation ended. */
  lemma {:induction false} ResetOnSeenDays(nm: Midnight, budget: map<Class, int>, start: Time, ops: seq<Op>)
    ensures var day := After(nm, budget, Start(nm, start), ops).resetAt;
            day == nm(start) || exists i :: 0 <= i < |ops| && nm(End(ops[i])) == day
  {
    if ops != [] {
      var n := |ops| - 1;
      ResetOnSeenDays(nm, budget, start, ops[..n]);
      ResetMoved(nm, budget, After(nm, budget, Start(nm, start), ops[..n]), ops[n]);
      assert ops[n].Release? || nm(End(ops[n])) == nm(ops[n].again);
    }
  }

  /** Before anything has happened on a day, the counters are fresh or due. */
  lemma NewDayIsFreshOrDue(nm: Midnight, budget: map<Class, int>, start: Time, ops: seq<Op>, t: Time)
    requires IsCalendar(nm) && Sequential(start, ops) && IsOver(ops, t) && start <= t
    requires forall i :: 0 <= i < |ops| ==> nm(End(ops[i])) != nm(t)
    ensures var q := After(nm, budget, Start(nm, start), ops);
            q.resetAt <= t || q == Counters(nm(t), map[])
  {
    CountersAreCurrent(nm, budget, start, ops, ClassPoll, t);
    ResetOnSeenDays(nm, budget, start, ops);
    if ops != [] {
      var last := ops[|ops| - 1];
      assert start <= End(last) <= t && nm(End(last)) != nm(t);
      assert t < nm(start) ==> nm(End(last)) == nm(start) == nm(t);
      assert t < nm(t);
    }
  }

  /**
   A quota made with these two budgets, whatever has happened before the day and to
   the other class: of the reservations of a class that open a day, exactly as many
   as its own budget says are granted, and every one after them is refused.
   */
  lemma EachClassHasItsBudget(nm: Midnight, pollBudget: int, searchBudget: int, start: Time, ops: seq<Op>, c: Class, later: seq<Reading>)
    requires IsCalendar(nm) && Sequential(start, ops) && later != [] && start <= later[0].at && IsOver(ops, later[0].at)
    requires forall i :: 0 <= i < |ops| ==> nm(End(ops[i])) != nm(later[0].at)
    requires forall i :: 0 <= i < |later| ==> later[i].at < nm(later[0].at) && nm(later[i].again) == nm(later[0].at)
    ensures var budget := map[ClassPoll := pollBudget, ClassSearch := searchBudget];
            var q := After(nm, budget, Start(nm, start), ops);
            forall i :: 0 <= i < |later| ==>
              ResultAt(nm, budget, q, Reserves(c, later), i)
              == if i < (match c case ClassPoll => pollBudget case ClassSearch => searchBudget) then Granted else Refused
  {
    var budget := map[ClassPoll := pollBudget, ClassSearch := searchBudget];
    var q, cleared := After(nm, budget, Start(nm, start), ops), Counters(nm(later[0].at), map[]);
    NewDayIsFreshOrDue(nm, budget, start, ops, later[0].at);
    ReservesCountUp(nm, budget, cleared, c, later);
    if q != cleared {
      DueIsFresh(nm, budget, q, c, later[0]);
      forall i | 0 <= i < |later| ensures ResultAt(nm, budget, q, Reserves(c, later), i) == ResultAt(nm, budget, cleared, Reserves(c, later), i) {
        SameAnswers(nm, budget, q, cleared, Reserves(c, later), i);
      }
    }
  }

  // ---- refunds that land on a later day ----

  predicate IsGrantOn(nm: Midnight, budget: map<Class, int>, q: Counters, ops: seq<Op>, c: Class, day: Time, i: nat)
    requires i < |ops|
  {
    ops[i].Reserve? && ops[i].c == c && nm(ops[i].at) == day && ResultAt(nm, budget, q, ops, i) == Granted
  }

  /** A refund gives back an earlier granted reservation of its class. */
  ghost predicate IsMatched(nm: Midnight, budget: map<Class, int>, q: Counters, ops: seq<Op>, i: nat)
    requires i < |ops|
  {
    ops[i].Release? ==> ops[i].of < i && IsGrantOn(nm, budget, q, ops, ops[i].c, nm(ops[ops[i].of].at), ops[i].of)
  }

  predicate GiveBackTwo(ops: seq<Op>, i: nat, j: nat)
    requires i < |ops| && j < |ops|
  {
    ops[i].Release? && ops[j].Release? ==> ops[i].of != ops[j].of
  }

  /** Every refund is matched, and no reservation is given back twice. */
  ghost predicate WellMatched(nm: Midnight, budget: map<Class, int>, q: Counters, ops: seq<Op>) {
    && (forall i :: 0 <= i < |ops| ==> IsMatched(nm, budget, q, ops, i))
    && (forall i, j :: 0 <= i < j < |ops| ==> GiveBackTwo(ops, i, j))
  }

  /** Calls of the day that were reserved and, so far, not given back. */
  function Outstanding(nm: Midnight, budget: map<Class, int>, q: Counters, ops: seq<Op>, c: Class, day: Time): set<nat> {
    if ops == [] then {}
    else
      var n := |ops| - 1;
      var before := Outstanding(nm, budget, q, ops[..n], c, day);
      if IsGrantOn(nm, budget, q, ops, c, day, n) then before + {n}
      else if ops[n].Release? && ops[n].c == c then before - {ops[n].of}
      else before
  }

  /** Refunds of the day for reservations made on an earlier one. */
  function LateRefunds(nm: Midnight, ops: seq<Op>, c: Class, day: Time): nat {
    if ops == [] then 0
    else
      var n := |ops| - 1;
      LateRefunds(nm, ops[..n], c, day)
      + (if ops[n].Release? && ops[n].c == c && nm(ops[n].at) == day && ops[n].of < n && nm(ops[ops[n].of].at) != day
         then 1 else 0)
  }

  /** A reservation is outstanding exactly when it was granted that day and no refund names it. */
  lemma {:induction false} OutstandingExactly(nm: Midnight, budget: map<Class, int>, q: Counters, ops: seq<Op>, c: Class, day: Time,
                                             i: nat)
    requires WellMatched(nm, budget, q, ops)
    ensures i in Outstanding(nm, budget, q, ops, c, day) <==>
              i < |ops| && IsGrantOn(nm, budget, q, ops, c, day, i)
              && forall j :: 0 <= j < |ops| && ops[j].Release? ==> ops[j].of != i
  {
    if ops != [] {
      var n := |ops| - 1;
      var front := ops[..n];
      WellMatchedFront(nm, budget, q, ops, n);
      OutstandingExactly(nm, budget, q, front, c, day, i);
      if i < n {
        assert front[..i] == ops[..i];
      }
      assert IsMatched(nm, budget, q, ops, n);
      forall j | 0 <= j < n && ops[j].Release? ensures ops[j].of < j {
        assert IsMatched(nm, budget, q, ops, j);
      }
    }
  }

  lemma WellMatchedFront(nm: Midnight, budget: map<Class, int>, q: Counters, ops: seq<Op>, n: nat)
    requires WellMatched(nm, budget, q, ops) && n <= |ops|
    ensures WellMatched(nm, budget, q, ops[..n])
  {
    var front := ops[..n];
    forall i | 0 <= i < n ensures IsMatched(nm, budget, q, front, i) {
      assert IsMatched(nm, budget, q, ops, i);
      if front[i].Release? {
        assert front[..front[i].of] == ops[..ops[i].of];
      }
    }
    forall i, j | 0 <= i < j < n ensures GiveBackTwo(front, i, j) {
      assert GiveBackTwo(ops, i, j);
    }
  }

  /** Outstanding calls of the day are covered by the calls in force and the late refunds. */
  ghost predicate IsCovered(nm: Midnight, budget: map<Class, int>, q: Counters, ops: seq<Op>, c: Class, now: Time) {
    |Outstanding(nm, budget, q, ops, c, nm(now))|
    <= InForce(After(nm, budget, q, ops), c, now) + LateRefunds(nm, ops, c, nm(now))
  }

  /** The call a refund names, seen from just before it. */
  lemma RefundedCall(nm: Midnight, budget: map<Class, int>, q: Counters, front: seq<Op>, op: Op, c: Class, day: Time)
    requires WellMatched(nm, budget, q, front + [op]) && op.Release? && op.c == c
    ensures op.of < |front| && (op.of in Outstanding(nm, budget, q, front, c, day) <==> nm(front[op.of].at) == day)
  {
    var ops, n := front + [op], |front|;
    assert ops[..n] == front && ops[n] == op;
    assert IsMatched(nm, budget, q, ops, n);
    WellMatchedFront(nm, budget, q, ops, n);
    OutstandingExactly(nm, budget, q, front, c, day, op.of);
    assert front[..op.of] == ops[..op.of];
    forall j | 0 <= j < n && front[j].Release? ensures front[j].of != op.of {
      assert GiveBackTwo(ops, j, n) && ops[j] == front[j];
    }
  }

  lemma NotYetOutstanding(nm: Midnight, budget: map<Class, int>, q: Counters, front: seq<Op>, op: Op, c: Class, day: Time)
    requires WellMatched(nm, budget, q, front + [op])
    ensures |front| !in Outstanding(nm, budget, q, front, c, day)
  {
    assert (front + [op])[..|front|] == front;
    WellMatchedFront(nm, budget, q, front + [op], |front|);
    OutstandingExactly(nm, budget, q, front, c, day, |front|);
  }

  /** One operation of the class moves outstanding calls, calls in force and late refunds together. */
  lemma OutstandingStep(nm: Midnight, budget: map<Class, int>, q: Counters, front: seq<Op>, op: Op, c: Class)
    requires IsCalendar(nm) && WellMatched(nm, budget, q, front + [op]) && IsOf(op, c)
    requires Fresh(nm, After(nm, budget, q, front), c, op.at)
    requires op.Release? || nm(op.at) == nm(op.again) || op.at < After(nm, budget, q, front).resetAt
    requires IsCovered(nm, budget, q, front, c, op.at)
    ensures IsCovered(nm, budget, q, front + [op], c, op.at)
  {
    assert (front + [op])[..|front|] == front;
    Extend(nm, budget, q, front, op);
    StepForce(nm, budget, After(nm, budget, q, front), c, op);
    NotYetOutstanding(nm, budget, q, front, op, c, nm(op.at));
    if op.Release? {
      RefundedCall(nm, budget, q, front, op, c, nm(op.at));
    }
  }

  lemma {:induction false} NoneOutstandingYet(nm: Midnight, budget: map<Class, int>, q: Counters, ops: seq<Op>, c: Class, day: Time)
    requires forall i :: 0 <= i < |ops| ==> nm(ops[i].at) != day
    ensures Outstanding(nm, budget, q, ops, c, day) == {} && LateRefunds(nm, ops, c, day) == 0
  {
    if ops != [] {
      NoneOutstandingYet(nm, budget, q, ops[..|ops| - 1], c, day);
    }
  }

  /** A call is counted on the day of its first reading; once that day is over, nothing is outstanding on the next. */
  lemma OwnStepIsCovered(nm: Midnight, budget: map<Class, int>, start: Time, ops: seq<Op>, c: Class, now: Time)
    requires IsCalendar(nm) && Sequential(start, ops) && ops != [] && IsOf(ops[|ops| - 1], c)
    requires WellMatched(nm, budget, Start(nm, start), ops) && End(ops[|ops| - 1]) <= now
    requires IsCovered(nm, budget, Start(nm, start), ops[..|ops| - 1], c, ops[|ops| - 1].at)
    requires Fresh(nm, After(nm, budget, Start(nm, start), ops[..|ops| - 1]), c, ops[|ops| - 1].at)
    requires Used(After(nm, budget, Start(nm, start), ops), c) >= 0
    ensures IsCovered(nm, budget, Start(nm, start), ops, c, now)
  {
    var n, q := |ops| - 1, Start(nm, start);
    var front, op := ops[..n], ops[n];
    if nm(op.at) != nm(now) {
      OtherDays(nm, start, ops, op.at, now);
      NoneOutstandingYet(nm, budget, q, ops, c, nm(now));
    } else {
      assert now < nm(now);
      assert front + [op] == ops && (op.Release? || nm(op.at) == nm(op.again));
      OutstandingStep(nm, budget, q, front, op, c);
      StepForce(nm, budget, After(nm, budget, q, front), c, op);
      ForceOverTime(nm, After(nm, budget, q, ops), c, op.at, now);
    }
  }

  lemma OtherStepIsCovered(nm: Midnight, budget: map<Class, int>, start: Time, ops: seq<Op>, c: Class, now: Time)
    requires IsCalendar(nm) && Sequential(start, ops) && ops != [] && !IsOf(ops[|ops| - 1], c) && End(ops[|ops| - 1]) <= now
    requires IsCovered(nm, budget, Start(nm, start), ops[..|ops| - 1], c, now)
    requires Fresh(nm, After(nm, budget, Start(nm, start), ops[..|ops| - 1]), c, now)
    ensures IsCovered(nm, budget, Start(nm, start), ops, c, now)
  {
    OtherClassStep(nm, budget, After(nm, budget, Start(nm, start), ops[..|ops| - 1]), c, ops[|ops| - 1], now);
  }

  /** A trace that is over by now, each refund giving back a reservation of its own. */
  ghost predicate IsAccountable(nm: Midnight, budget: map<Class, int>, start: Time, ops: seq<Op>, now: Time) {
    && Sequential(start, ops) && WellMatched(nm, budget, Start(nm, start), ops)
    && start <= now && IsOver(ops, now)
  }

  lemma AccountableFront(nm: Midnight, budget: map<Class, int>, start: Time, ops: seq<Op>, now: Time)
    requires IsAccountable(nm, budget, start, ops, now) && ops != []
    ensures var n := |ops| - 1;
            IsAccountable(nm, budget, start, ops[..n], ops[n].at) && IsAccountable(nm, budget, start, ops[..n], now)
  {
    SequentialFront(start, ops);
    WellMatchedFront(nm, budget, Start(nm, start), ops, |ops| - 1);
  }

  lemma {:induction false} OutstandingInForce(nm: Midnight, budget: map<Class, int>, start: Time, ops: seq<Op>, c: Class, now: Time)
    requires IsCalendar(nm) && IsAccountable(nm, budget, start, ops, now)
    ensures IsCovered(nm, budget, Start(nm, start), ops, c, now)
  {
    if ops != [] {
      var n := |ops| - 1;
      var t := if IsOf(ops[n], c) then ops[n].at else now;
      AccountableFront(nm, budget, start, ops, now);
      OutstandingInForce(nm, budget, start, ops[..n], c, t);
      LastStepIsCovered(nm, budget, start, ops, c, now);
    }
  }

  lemma LastStepIsCovered(nm: Midnight, budget: map<Class, int>, start: Time, ops: seq<Op>, c: Class, now: Time)
    requires IsCalendar(nm) && Sequential(start, ops) && start <= now && ops != []
    requires WellMatched(nm, budget, Start(nm, start), ops) && End(ops[|ops| - 1]) <= now
    requires var n := |ops| - 1;
             IsCovered(nm, budget, Start(nm, start), ops[..n], c, if IsOf(ops[n], c) then ops[n].at else now)
    ensures IsCovered(nm, budget, Start(nm, start), ops, c, now)
  {
    var n := |ops| - 1;
    SequentialFront(start, ops);
    CountersAreCurrent(nm, budget, start, ops, c, now);
    if IsOf(ops[n], c) {
      CountersAreCurrent(nm, budget, start, ops[..n], c, ops[n].at);
      OwnStepIsCovered(nm, budget, start, ops, c, now);
    } else {
      CountersAreCurrent(nm, budget, start, ops[..n], c, now);
      OtherStepIsCovered(nm, budget, start, ops, c, now);
    }
  }

  /**
   The calls of a day that were reserved and not given back exceed the budget by at
   most the refunds of that day for reservations of an earlier one.
   */
  lemma OverrunIsBounded(nm: Midnight, budget: map<Class, int>, start: Time, ops: seq<Op>, c: Class, now: Time)
    requires IsCalendar(nm) && Sequential(start, ops) && start <= now
    requires WellMatched(nm, budget, Start(nm, start), ops)
    requires IsOver(ops, now)
    ensures |Outstanding(nm, budget, Start(nm, start), ops, c, nm(now))|
         <= (if c in budget && budget[c] > 0 then budget[c] else 0) + LateRefunds(nm, ops, c, nm(now))
  {
    OutstandingInForce(nm, budget, start, ops, c, now);
    CountersAreCurrent(nm, budget, start, ops, c, now);
  }

  // ---- exactly when the budget is kept ----

  /** Every refund of the class falls on the day of its reservation, or is one at `again` for a reservation made at `at`. */
  ghost predicate RefundsInTimeExcept(nm: Midnight, ops: seq<Op>, c: Class, at: Time, again: Time) {
    forall i :: 0 <= i < |ops| && ops[i].Release? && ops[i].c == c && ops[i].of < i ==>
      nm(ops[i].at) == nm(ops[ops[i].of].at) || (ops[i].at == again && ops[ops[i].of].at == at)
  }

  lemma {:induction false} NoLateRefunds(nm: Midnight, ops: seq<Op>, c: Class, day: Time, at: Time, again: Time)
    requires RefundsInTimeExcept(nm, ops, c, at, again) && nm(at) == nm(again)
    ensures LateRefunds(nm, ops, c, day) == 0
  {
    if ops != [] {
      NoLateRefunds(nm, ops[..|ops| - 1], c, day, at, again);
    }
  }

  /** One call is reserved, the budget is used up later, the early call is given back, and one more is asked for. */
  function OverrunTrace(c: Class, at: Time, again: Time, b: nat): seq<Op> {
    OverrunHead(c, at, again, b) + [Op.Release(c, again, 0), Op.Reserve(c, again, again)]
  }

  function OverrunHead(c: Class, at: Time, again: Time, b: nat): seq<Op> {
    [Op.Reserve(c, at, at), Op.Remaining(c, again, again)] + Reserves(c, seq(b, i => Reading(again, again)))
  }

  lemma OverrunShape(c: Class, at: Time, again: Time, b: nat)
    ensures var ops := OverrunTrace(c, at, again, b);
            && |ops| == b + 4 && ops[..b + 2] == OverrunHead(c, at, again, b)
            && ops[0] == Op.Reserve(c, at, at) && ops[1] == Op.Remaining(c, again, again)
            && (forall i :: 2 <= i < b + 2 ==> ops[i] == Op.Reserve(c, again, again))
            && ops[b + 2] == Op.Release(c, again, 0) && ops[b + 3] == Op.Reserve(c, again, again)
  {
    var ops := OverrunTrace(c, at, again, b);
    assert forall i :: 2 <= i < b + 2 ==> ops[i] == Reserves(c, seq(b, i => Reading(again, again)))[i - 2];
  }

  lemma OverrunIsSequential(start: Time, c: Class, at: Time, again: Time, b: nat)
    requires start <= at <= again
    ensures Sequential(start, OverrunTrace(c, at, again, b))
  {
    var ops := OverrunTrace(c, at, again, b);
    OverrunShape(c, at, again, b);
    assert forall i :: 1 <= i < |ops| ==> ops[i].at == End(ops[i]) == again;
  }

  /** Where the counters stand once the later day has been looked at. */
  lemma OverrunStarts(nm: Midnight, budget: map<Class, int>, start: Time, c: Class, at: Time, again: Time)
    requires IsCalendar(nm) && Budget(budget, c) > 0 && start <= at <= again && nm(at) != nm(again)
    ensures var ops, q := [Op.Reserve(c, at, at), Op.Remaining(c, again, again)], Start(nm, start);
            && ResultAt(nm, budget, q, ops, 0) == Granted
            && After(nm, budget, q, ops) == Counters(nm(again), map[])
  {
    var q, first := Start(nm, start), Op.Reserve(c, at, at);
    Extend(nm, budget, q, [], first);
    assert [] + [first] == [first];
    Extend(nm, budget, q, [first], Op.Remaining(c, again, again));
    var ops := [Op.Reserve(c, at, at), Op.Remaining(c, again, again)];
    assert ops == [first] + [Op.Remaining(c, again, again)] && ops[..0] == [];
    assert start < nm(start) && at < nm(at);
    assert at < nm(start) ==> nm(at) == nm(start);
    assert again < nm(at) ==> nm(again) == nm(at);
    assert After(nm, budget, q, [first]).resetAt == nm(at);
  }

  lemma SuffixAnswers(nm: Midnight, budget: map<Class, int>, q: Counters, a: seq<Op>, b: seq<Op>, i: nat)
    requires i < |b|
    ensures ResultAt(nm, budget, q, a + b, |a| + i) == ResultAt(nm, budget, After(nm, budget, q, a), b, i)
  {
    assert (a + b)[..|a| + i] == a + b[..i];
    AfterSplit(nm, budget, q, a, b[..i]);
  }

  lemma OverrunHeadResults(nm: Midnight, budget: map<Class, int>, start: Time, c: Class, at: Time, again: Time)
    requires IsCalendar(nm) && Budget(budget, c) > 0 && start <= at <= again && nm(at) != nm(again)
    ensures var b, q := Budget(budget, c), Start(nm, start);
            var head := OverrunHead(c, at, again, b);
            && After(nm, budget, q, head).resetAt == nm(again) && Used(After(nm, budget, q, head), c) == b
            && |head| == b + 2 && ResultAt(nm, budget, q, head, 0) == Granted
            && forall i :: 2 <= i < b + 2 ==> ResultAt(nm, budget, q, head, i) == Granted
  {
    var b, q := Budget(budget, c), Start(nm, start);
    var begun, later := [Op.Reserve(c, at, at), Op.Remaining(c, again, again)], seq(b, i => Reading(again, again));
    assert again < nm(again);
    OverrunStarts(nm, budget, start, c, at, again);
    ReservesCountUp(nm, budget, Counters(nm(again), map[]), c, later);
    AfterSplit(nm, budget, q, begun, Reserves(c, later));
    PrefixAnswers(nm, budget, q, begun, OverrunHead(c, at, again, b), 0);
    forall i | 2 <= i < b + 2 ensures ResultAt(nm, budget, q, OverrunHead(c, at, again, b), i) == Granted {
      SuffixAnswers(nm, budget, q, begun, Reserves(c, later), i - 2);
    }
  }

  /** A full counter that gets one call back lets one more through. */
  lemma RefundLetsOneThrough(nm: Midnight, budget: map<Class, int>, q: Counters, c: Class, t: Time)
    requires Used(q, c) == Budget(budget, c) > 0 && t < q.resetAt
    ensures ResultAt(nm, budget, q, [Op.Release(c, t, 0), Op.Reserve(c, t, t)], 1) == Granted
  {
    var ops := [Op.Release(c, t, 0), Op.Reserve(c, t, t)];
    assert ops[..1] == [ops[0]] && [ops[0]][..0] == [];
    assert After(nm, budget, q, ops[..1]) == ReleaseStep(q, c);
  }

  /** What the trace is answered: only the early refund stands between the budget and one call more. */
  lemma OverrunResults(nm: Midnight, budget: map<Class, int>, start: Time, c: Class, at: Time, again: Time)
    requires IsCalendar(nm) && Budget(budget, c) > 0 && start <= at <= again && nm(at) != nm(again)
    ensures var b, q := Budget(budget, c), Start(nm, start);
            forall i :: 0 <= i < b + 4 && i != 1 && i != b + 2 ==>
              i < |OverrunTrace(c, at, again, b)| && ResultAt(nm, budget, q, OverrunTrace(c, at, again, b), i) == Granted
  {
    var b, q := Budget(budget, c), Start(nm, start);
    var ops, head := OverrunTrace(c, at, again, b), OverrunHead(c, at, again, b);
    OverrunHeadResults(nm, budget, start, c, at, again);
    assert again < nm(again);
    RefundLetsOneThrough(nm, budget, After(nm, budget, q, head), c, again);
    SuffixAnswers(nm, budget, q, head, [Op.Release(c, again, 0), Op.Reserve(c, again, again)], 1);
    forall i | 0 <= i < b + 2 && i != 1 ensures ResultAt(nm, budget, q, ops, i) == Granted {
      PrefixAnswers(nm, budget, q, head, ops, i);
    }
  }

  lemma OverrunIsMatched(nm: Midnight, budget: map<Class, int>, start: Time, c: Class, at: Time, again: Time)
    requires IsCalendar(nm) && Budget(budget, c) > 0 && start <= at <= again && nm(at) != nm(again)
    ensures IsAccountable(nm, budget, start, OverrunTrace(c, at, again, Budget(budget, c)), again)
    ensures RefundsInTimeExcept(nm, OverrunTrace(c, at, again, Budget(budget, c)), c, at, again)
  {
    OverrunShape(c, at, again, Budget(budget, c));
    OverrunIsSequential(start, c, at, again, Budget(budget, c));
    OverrunResults(nm, budget, start, c, at, again);
  }

  lemma OverrunOutstanding(nm: Midnight, budget: map<Class, int>, start: Time, c: Class, at: Time, again: Time, i: nat)
    requires IsCalendar(nm) && Budget(budget, c) > 0 && start <= at <= again && nm(at) != nm(again)
    ensures var b := Budget(budget, c);
            i in Outstanding(nm, budget, Start(nm, start), OverrunTrace(c, at, again, b), c, nm(again))
            <==> 2 <= i < b + 2 || i == b + 3
  {
    OverrunShape(c, at, again, Budget(budget, c));
    OverrunResults(nm, budget, start, c, at, again);
    OverrunIsMatched(nm, budget, start, c, at, again);
    OutstandingExactly(nm, budget, Start(nm, start), OverrunTrace(c, at, again, Budget(budget, c)), c, nm(again), i);
  }

  /**
   The budget can be overrun, whatever it is and whatever the day: a call reserved on
   one day and given back on a later one lets a call more than the budget through.
   */
  lemma BudgetCanBeOverrun(nm: Midnight, budget: map<Class, int>, start: Time, c: Class, at: Time, again: Time)
    requires IsCalendar(nm) && c in budget && budget[c] > 0 && start <= at <= again && nm(at) != nm(again)
    ensures var b := budget[c];
            var ops := OverrunTrace(c, at, again, b);
            && IsAccountable(nm, budget, start, ops, again) && RefundsInTimeExcept(nm, ops, c, at, again)
            && |Outstanding(nm, budget, Start(nm, start), ops, c, nm(again))| == b + 1
  {
    OverrunIsMatched(nm, budget, start, c, at, again);
    OverrunSize(nm, budget, start, c, at, again);
  }

  lemma OverrunSize(nm: Midnight, budget: map<Class, int>, start: Time, c: Class, at: Time, again: Time)
    requires IsCalendar(nm) && c in budget && budget[c] > 0 && start <= at <= again && nm(at) != nm(again)
    ensures |Outstanding(nm, budget, Start(nm, start), OverrunTrace(c, at, again, budget[c]), c, nm(again))| == budget[c] + 1
  {
    var out := Outstanding(nm, budget, Start(nm, start), OverrunTrace(c, at, again, budget[c]), c, nm(again));
    forall i: nat ensures i in out <==> 2 <= i < budget[c] + 2 || i == budget[c] + 3 {
      OverrunOutstanding(nm, budget, start, c, at, again, i);
    }
    OneGap(out, budget[c]);
  }

  lemma OneGap(out: set<nat>, b: nat)
    requires forall i: nat :: i in out <==> 2 <= i < b + 2 || i == b + 3
    ensures |out| == b + 1
  {
    assert out == Interval(2, b + 2) + {b + 3};
  }

  /**
   Exactly which refunds are harmless: with any positive budget, no day's outstanding
   calls exceed it, in any trace whose refunds otherwise fall on the day of their
   reservation, if and only if no midnight lies between a reservation and its refund.
   */
  lemma BudgetKeptExactlyWhen(nm: Midnight, budget: map<Class, int>, start: Time, c: Class, at: Time, again: Time)
    requires IsCalendar(nm) && c in budget && budget[c] > 0 && start <= at <= again
    ensures (forall ops, now :: IsAccountable(nm, budget, start, ops, now) && RefundsInTimeExcept(nm, ops, c, at, again) ==>
               |Outstanding(nm, budget, Start(nm, start), ops, c, nm(now))| <= budget[c])
       <==> nm(at) == nm(again)
  {
    if nm(at) == nm(again) {
      forall ops, now | IsAccountable(nm, budget, start, ops, now) && RefundsInTimeExcept(nm, ops, c, at, again)
        ensures |Outstanding(nm, budget, Start(nm, start), ops, c, nm(now))| <= budget[c]
      {
        NoLateRefunds(nm, ops, c, nm(now), at, again);
        OverrunIsBounded(nm, budget, start, ops, c, now);
      }
    } else {
      BudgetCanBeOverrun(nm, budget, start, c, at, again);
    }
  }
}
