/**
 One tick of the scheduler (internal/scheduler/scheduler.go), written as the
 source writes it: a budget, a query, and a loop of sends that never block. The
 goroutines it shares the channel with may move between any two of its
 statements, and everything that happens is recorded as steps of Pipeline.
 */
module EventScheduler {
  import opened Basics
  import opened AlertStore
  import Quota = DailyQuota
  import opened Pipeline

  lemma OneMoreSent(s: State, before: seq<int>, due: seq<int>, i: nat)
    requires i < |due| && s.sched == Ticking(due[i..]) && s.sent == before + due[..i] && !s.closed
    ensures Do(s, Send) == s.(sched := Ticking(due[i + 1..]), sent := before + due[..i + 1], queue := s.queue + [due[i]])
  {
    assert due[i..][1..] == due[i + 1..];
    assert before + due[..i] + [due[i]] == before + due[..i + 1];
  }

  /** What the goroutines share: the jobs channel, the cancellation, and where each of them stands. */
  class Shared {
    const workers: nat
    const maxDue: nat
    var jobs: seq<int>
    var taken: nat
    var cancelled: bool
    var hands: seq<Hand>
    var main: Main
    ghost var log: seq<Label>

    ghost function Now(): State
      reads this
    {
      Run(Launch(workers), log)
    }

    /** The fields are those of the machine after the recorded steps, every one of which it could take. */
    ghost predicate Valid()
      reads this
    {
      && IsRun(maxDue, Launch(workers), log)
      && |hands| == workers
      && var s := Now();
         jobs == s.queue && taken == |s.received| && cancelled == s.cancelled && hands == s.workers && main == s.main
    }

    constructor (workers: nat, maxDue: nat)
      ensures this.workers == workers && this.maxDue == maxDue
      ensures Valid() && log == [] && Now() == Launch(workers)
    {
      this.workers, this.maxDue := workers, maxDue;
      jobs, taken, cancelled, main, log := [], 0, false, Serving, [];
      hands := seq(workers, i => Waiting);
    }

    ghost method Took(l: Label)
      requires IsRun(maxDue, Launch(workers), log) && CanDo(maxDue, Now(), l)
      modifies this`log
      ensures IsRun(maxDue, Launch(workers), log) && log == old(log) + [l] && Now() == Do(old(Now()), l)
    {
      RunExtend(maxDue, Launch(workers), log, l);
      log := log + [l];
    }

    /** A signal arrives, or main notices it. */
    method MainMoves()
      requires Valid()
      modifies this
      ensures Valid() && Now().sched == old(Now().sched) && Now().sent == old(Now().sent)
      ensures (old(cancelled) ==> cancelled) && old(log) <= log
    {
      if !cancelled {
        cancelled := true;
        Took(Cancel);
      } else if main.Serving? {
        main := AwaitScheduler;
        Took(Notice);
      }
    }

    /** A worker takes a job, or is done with one. */
    method WorkerMoves(w: nat)
      requires Valid() && w < workers
      modifies this
      ensures Valid() && Now().sched == old(Now().sched) && Now().sent == old(Now().sent)
      ensures (old(cancelled) ==> cancelled) && old(log) <= log
    {
      if hands[w].Waiting? && jobs != [] {
        Took(Receive(w));
        jobs, taken, hands := jobs[1..], taken + 1, hands[w := Processing(taken)];
      } else if hands[w].Processing? {
        Took(Return(w));
        hands := hands[w := Waiting];
      }
    }

    /** Other goroutines make any number of moves. */
    method OthersMove()
      requires Valid() && Now().sched.Ticking?
      modifies this
      ensures Valid() && Now().sched == old(Now().sched) && Now().sent == old(Now().sent)
      ensures (old(cancelled) ==> cancelled) && old(log) <= log
    {
      var moves: int := *;
      while moves > 0
        invariant Valid() && Now().sched == old(Now().sched) && Now().sent == old(Now().sent)
        invariant (old(cancelled) ==> cancelled) && old(log) <= log
      {
        var w: int := *;
        if 0 <= w < workers {
          WorkerMoves(w);
        } else {
          MainMoves();
        }
        moves := moves - 1;
      }
    }

    /** A tick with this due list is under way, and its first i ids have gone in after the ones sent before. */
    ghost predicate Sending(before: seq<int>, due: seq<int>, i: nat)
      reads this
    {
      i <= |due| && Now().sched == Ticking(due[i..]) && Now().sent == before + due[..i]
    }

    ghost method Begin(due: seq<int>)
      requires Valid() && Now().sched.Idle? && |due| <= maxDue
      modifies this`log
      ensures Valid() && old(log) <= log && Sending(old(Now().sent), due, 0)
    {
      Took(Label.Tick(due));
    }

    /**
     The scheduler's select: others may have moved since it last looked; then it
     sends if there is room, or gives up if it is cancelled or would block. With
     both possible, either may be chosen.
     */
    method Offer(id: int, ghost before: seq<int>, ghost due: seq<int>, ghost i: nat) returns (sent: bool)
      requires Valid() && Sending(before, due, i) && i < |due| && id == due[i]
      modifies this
      ensures Valid() && old(log) <= log
      ensures Sending(before, due, if sent then i + 1 else i)
      ensures !sent ==> cancelled || |jobs| == workers
    {
      OthersMove();
      PipelineHolds(maxDue, workers, log);
      var preferDone: bool := *;
      if |jobs| >= workers || (cancelled && preferDone) {
        return false;
      }
      OneMoreSent(Now(), before, due, i);
      jobs := jobs + [id];
      Took(Send);
      return true;
    }

    ghost method End(before: seq<int>, due: seq<int>, i: nat)
      requires Valid() && Sending(before, due, i) && (i == |due| || cancelled || |jobs| == workers)
      modifies this`log
      ensures Valid() && old(log) <= log
      ensures Now().sched.Idle? && Now().sent == before + due[..i]
    {
      PipelineHolds(maxDue, workers, log);
      Took(Leave);
    }
  }

  predicate IsInt32(n: int) {
    -0x8000_0000 <= n < 0x8000_0000
  }

  /** Conversion to a 32-bit integer keeps the low 32 bits: whole turns of 2^32 drop out. */
  function Int32(n: int): int
    decreases if IsInt32(n) then 0 else if n < 0 then -n else n
  {
    if IsInt32(n) then n else if n < 0 then Int32(n + 0x1_0000_0000) else Int32(n - 0x1_0000_0000)
  }

  /** It is the one 32-bit integer that differs by whole turns. */
  lemma {:induction false} Int32DropsTurns(n: int)
    ensures IsInt32(Int32(n)) && (n - Int32(n)) % 0x1_0000_0000 == 0
    ensures n >= 0 ==> Int32(n) <= n
    decreases if IsInt32(n) then 0 else if n < 0 then -n else n
  {
    if !IsInt32(n) {
      Int32DropsTurns(if n < 0 then n + 0x1_0000_0000 else n - 0x1_0000_0000);
    }
  }

  /**
   A list of due events for a tick that may send so many. Unless that number is
   beyond 32 bits or the store fails, a due event is left out only when the list is
   that long and everything in it was due no later.
   */
  ghost predicate ListsDue(db: Db, now: Time, most: int, reliable: bool, due: seq<int>) {
    && |due| <= (if most > 0 then most else 0)
    && (reliable && 0 < most < 0x8000_0000 ==>
          && IsDueListing(db, now, most, due)
          && (forall e :: IsDueEvent(db, e, now) && e !in due ==> |due| == most))
    && (due != [] ==> Int32(most) >= 0 && IsDueListing(db, now, Int32(most), due))
  }

  class Scheduler {
    const store: Store
    const quota: Quota.DailyQuota
    const shared: Shared
    const maxTick: int

    constructor (store: Store, quota: Quota.DailyQuota, shared: Shared, maxTick: int)
      ensures this.store == store && this.quota == quota && this.shared == shared && this.maxTick == maxTick
    {
      this.store, this.quota, this.shared, this.maxTick := store, quota, shared, maxTick;
    }

    /**
     A tick lists as many due events as there are, earliest first, up to the polls
     left today or the cap per tick, whichever is less, and none if that is nothing.
     It sends a prefix of the list, and stops short only when the channel is full or
     the service is shutting down.
     */
    method Tick(at: Time, again: Time, now: Time) returns (due: seq<int>, ghost n: nat)
      requires shared.Valid() && shared.Now().sched.Idle? && maxTick <= shared.maxDue
      modifies shared, quota
      ensures shared.Valid() && shared.Now().sched.Idle? && old(shared.log) <= shared.log
      ensures quota.Contents() == Quota.MaybeReset(quota.nextMidnight, old(quota.Contents()), at, again)
      ensures n <= |due| && shared.Now().sent == old(shared.Now().sent) + due[..n]
      ensures n < |due| ==> shared.cancelled || |shared.jobs| == shared.workers
      ensures var left := (if Quota.ClassPoll in quota.budget then quota.budget[Quota.ClassPoll] else 0)
                          - (if Quota.ClassPoll in quota.used then quota.used[Quota.ClassPoll] else 0);
              var most := if left < maxTick then left else maxTick;
              && (most <= 0 ==> due == [] && shared.log == old(shared.log))
              && ListsDue(store.Tables(), now, most, store.reliable, due)
    {
      n := 0;
      due := [];
      var listed := Choose(at, again, now);
      if listed.Some? {
        due := listed.value;
        ghost var db, counters := store.Tables(), quota.Contents();
        n := Enqueue(due);
        assert store.Tables() == db && quota.Contents() == counters;
      }
    }

    /** What a tick has to send, if it gets as far as a list. */
    method Choose(at: Time, again: Time, now: Time) returns (listed: Option<seq<int>>)
      modifies quota
      ensures quota.Contents() == Quota.MaybeReset(quota.nextMidnight, old(quota.Contents()), at, again)
      ensures var left := (if Quota.ClassPoll in quota.budget then quota.budget[Quota.ClassPoll] else 0)
                          - (if Quota.ClassPoll in quota.used then quota.used[Quota.ClassPoll] else 0);
              var most := if left < maxTick then left else maxTick;
              && (most <= 0 ==> listed.None?)
              && ListsDue(store.Tables(), now, most, store.reliable, if listed.Some? then listed.value else [])
    {
      var budget: int := quota.Remaining(Quota.ClassPoll, at, again);
      if budget > maxTick {
        budget := maxTick;
      }
      if budget <= 0 {
        return None;
      }
      listed := List(budget, now);
    }

    /** A negative limit is an error to the database. */
    method List(budget: int, now: Time) returns (ids: Option<seq<int>>)
      requires budget > 0
      ensures ids.Some? ==> 0 <= Int32(budget) <= budget && IsDueListing(store.Tables(), now, Int32(budget), ids.value)
      ensures store.reliable && budget < 0x8000_0000 ==> ids.Some?
    {
      Int32DropsTurns(budget);
      var limit := Int32(budget);
      if limit < 0 {
        return None;
      }
      ids := store.ListDueEvents(limit, now);
    }

    method Enqueue(due: seq<int>) returns (ghost n: nat)
      requires shared.Valid() && shared.Now().sched.Idle? && |due| <= shared.maxDue
      modifies shared
      ensures shared.Valid() && shared.Now().sched.Idle? && old(shared.log) <= shared.log
      ensures n <= |due| && shared.Now().sent == old(shared.Now().sent) + due[..n]
      ensures n < |due| ==> shared.cancelled || |shared.jobs| == shared.workers
    {
      ghost var before := shared.Now().sent;
      shared.Begin(due);
      var i := 0;
      while i < |due|
        invariant shared.Valid() && old(shared.log) <= shared.log && shared.Sending(before, due, i)
      {
        var sent := shared.Offer(due[i], before, due, i);
        if !sent {
          break;
        }
        i := i + 1;
      }
      n := i;
      shared.End(before, due, i);
    }
  }
}
