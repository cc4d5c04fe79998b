/**
 The on-sale flip over interleaved runs. It is not claimed, so nothing keeps two
 jobs, or one job after another that failed, from mailing it again; this is the
 exact account of how often that happens.
 */
module FlipLedger {
  import opened Basics
  import opened Evaluator
  import opened AlertStore
  import opened AlertEngine
  import opened WatchSignal
  import opened ClaimLedger

  ghost predicate IsPlaced(pc: Pc) {
    IsWellPlaced(pc) && (pc.Claim? ==> pc.kind != StatusOnsale)
  }

  ghost predicate JobsPlaced(s: System) {
    JobsNumbered(s) && forall j :: j in s.jobs ==> IsPlaced(s.jobs[j])
  }

  /** No job has the watch in hand and the log says nothing about it yet. */
  ghost predicate IsUnseen(s: System, x: int) {
    && (forall j, r :: j in s.jobs && r in RowsOf(s.jobs[j]) ==> r.id != x)
    && AlertCount(s.log, x) == 0 && EvalsOf(s.log, x) == []
  }

  /** A system in which the life of the watch begins. */
  ghost predicate Begins(s: System, x: int) {
    Consistent(s.db) && JobsPlaced(s) && IsUnseen(s, x)
  }

  lemma FreshBegins(s: System, x: int)
    requires Fresh(s)
    ensures Begins(s, x)
  {
  }

  /** Jobs that have mailed or withheld the watch's flip and not stored its signal. */
  ghost function OutJobs(s: System, x: int): set<nat> {
    set j | j in s.jobs && FlipIsOut(s.jobs[j], x)
  }

  /** A job ends in that state, by a failed call or a crash. */
  ghost predicate LeavesFlipOut(s: System, l: Label, x: int) {
    (l.Move? || l.Crash?) && l.job in s.jobs && FlipIsOut(s.jobs[l.job], x) && Do(s, l).jobs[l.job] == Done(false)
  }

  ghost function FlipsLeftOut(s: System, ls: seq<Label>, x: int): nat {
    if ls == [] then 0
    else
      var n := |ls| - 1;
      FlipsLeftOut(s, ls[..n], x) + if LeavesFlipOut(Run(s, ls[..n]), ls[n], x) then 1 else 0
  }

  lemma SetsButFor(a: set<nat>, b: set<nat>, j: nat)
    requires forall i :: i != j ==> (i in a <==> i in b)
    ensures |b| + (if j in a then 1 else 0) == |a| + if j in b then 1 else 0
  {
    var rest := a - {j};
    assert a == if j in a then rest + {j} else rest;
    assert b == if j in b then rest + {j} else rest;
  }

  lemma OutChanged(s: System, s': System, j: nat, x: int)
    requires j in s.jobs && j in s'.jobs && s'.jobs == s.jobs[j := s'.jobs[j]]
    ensures |OutJobs(s', x)| + OutCount(s.jobs[j], x) == |OutJobs(s, x)| + OutCount(s'.jobs[j], x)
  {
    assert forall i :: i != j ==> (i in OutJobs(s, x) <==> i in OutJobs(s', x));
    SetsButFor(OutJobs(s, x), OutJobs(s', x), j);
  }

  /** Alerts are recorded flips, flips out at this moment, and `left` flips left out for good. */
  ghost predicate IsAccounted(s: System, x: int, left: nat) {
    AlertCount(s.log, x) == FlipCount(s.log, x) + left + |OutJobs(s, x)|
  }

  lemma MoveAccounts(s: System, j: nat, at: Time, r: Reply, x: int, left: nat)
    requires JobsPlaced(s) && CanDo(s, Move(j, at, r)) && IsAccounted(s, x, left)
    ensures JobsPlaced(Do(s, Move(j, at, r)))
    ensures IsAccounted(Do(s, Move(j, at, r)), x, left + if LeavesFlipOut(s, Move(j, at, r), x) then 1 else 0)
  {
    var l, s' := Local(s.db, s.log, s.jobs[j]), Do(s, Move(j, at, r));
    MoveIsBalanced(j, l, at, r, x);
    MoveClaims(j, l, at, r);
    OutChanged(s, s', j, x);
  }

  lemma MoveClaims(job: nat, l: Local, at: Time, r: Reply)
    requires (l.pc.Claim? ==> l.pc.kind != StatusOnsale) && CanAnswer(l, r)
    ensures Advance(job, l, at, r).pc.Claim? ==> Advance(job, l, at, r).pc.kind != StatusOnsale
  {
  }

  /** A crash adds no alert and no evaluation. */
  lemma CrashCounts(s: System, j: nat, x: int)
    requires CanDo(s, Crash(j))
    ensures AlertCount(Do(s, Crash(j)).log, x) == AlertCount(s.log, x)
    ensures EvalsOf(Do(s, Crash(j)).log, x) == EvalsOf(s.log, x)
  {
    LostCounts(s.log, LostBy(j, s.jobs[j]), x);
  }

  lemma CrashKeepsPlaced(s: System, j: nat)
    requires JobsPlaced(s) && CanDo(s, Crash(j))
    ensures JobsPlaced(Do(s, Crash(j)))
  {
  }

  lemma CrashAccounts(s: System, j: nat, x: int, left: nat)
    requires JobsPlaced(s) && CanDo(s, Crash(j)) && IsAccounted(s, x, left)
    ensures IsAccounted(Do(s, Crash(j)), x, left + if LeavesFlipOut(s, Crash(j), x) then 1 else 0)
  {
    var s' := Do(s, Crash(j));
    CrashCounts(s, j, x);
    OutChanged(s, s', j, x);
    assert !FlipIsOut(s'.jobs[j], x);
    assert FlipCount(s'.log, x) == FlipCount(s.log, x);
  }

  lemma BeginAccounts(s: System, e: int, x: int, left: nat)
    requires JobsPlaced(s) && IsAccounted(s, x, left)
    ensures JobsPlaced(Do(s, Begin(e))) && IsAccounted(Do(s, Begin(e)), x, left)
  {
    GetIsPlaced(e, x);
    JobAdded(s, Do(s, Begin(e)), Get(e), x);
  }

  lemma GetIsPlaced(e: int, x: int)
    ensures IsPlaced(Get(e)) && !FlipIsOut(Get(e), x)
  {
  }

  lemma JobAdded(s: System, s': System, pc: Pc, x: int)
    requires JobsPlaced(s) && IsPlaced(pc) && !FlipIsOut(pc, x)
    requires s' == s.(jobs := s.jobs[s.nextJob := pc], nextJob := s.nextJob + 1)
    ensures JobsPlaced(s') && OutJobs(s', x) == OutJobs(s, x)
  {
    assert s.nextJob !in s.jobs;
  }

  lemma UserAccounts(s: System, a: Act, x: int, left: nat)
    requires JobsPlaced(s) && IsAccounted(s, x, left)
    ensures JobsPlaced(Do(s, UserDoes(a))) && IsAccounted(Do(s, UserDoes(a)), x, left)
  {
    assert OutJobs(Do(s, UserDoes(a)), x) == OutJobs(s, x);
  }

  lemma StepAccounts(s: System, l: Label, x: int, left: nat)
    requires JobsPlaced(s) && CanDo(s, l) && IsAccounted(s, x, left)
    ensures JobsPlaced(Do(s, l))
    ensures IsAccounted(Do(s, l), x, left + if LeavesFlipOut(s, l, x) then 1 else 0)
  {
    match l
    case Begin(e) => BeginAccounts(s, e, x, left);
    case Move(j, at, r) => MoveAccounts(s, j, at, r, x, left);
    case Crash(j) =>
      CrashKeepsPlaced(s, j);
      CrashAccounts(s, j, x, left);
    case UserDoes(a) => UserAccounts(s, a, x, left);
  }

  /**
   Over every interleaved run, the on-sale alerts of a watch are its recorded flips,
   plus the flips out at this moment, plus those that jobs left out when they ended.
   */
  lemma {:induction false} AlertsAreAccountedFor(s: System, ls: seq<Label>, x: int)
    requires Begins(s, x) && IsRun(s, ls)
    ensures JobsPlaced(Run(s, ls)) && IsAccounted(Run(s, ls), x, FlipsLeftOut(s, ls, x))
  {
    if ls == [] {
      assert OutJobs(s, x) == {} by {
        forall j | j in s.jobs ensures !FlipIsOut(s.jobs[j], x) {
          assert HasRow(s.jobs[j]) ==> s.jobs[j].row in RowsOf(s.jobs[j]);
        }
      }
    } else {
      var n := |ls| - 1;
      IsRunPrefix(s, ls, n);
      AlertsAreAccountedFor(s, ls[..n], x);
      StepAccounts(Run(s, ls[..n]), ls[n], x, FlipsLeftOut(s, ls[..n], x));
    }
  }

  // ---- recorded flips and rising edges ----

  /** Recorded flips that rise, and recorded flips whose signal was already on sale when they were recorded. */
  function RisingFlips(seed: bool, es: seq<Eval>): nat {
    if es == [] then 0
    else
      var n := |es| - 1;
      RisingFlips(seed, es[..n]) + if es[n].flipped && !Before(seed, es, n) then 1 else 0
  }

  function Overtaken(seed: bool, es: seq<Eval>): nat {
    if es == [] then 0
    else
      var n := |es| - 1;
      Overtaken(seed, es[..n]) + if es[n].flipped && Before(seed, es, n) then 1 else 0
  }

  lemma {:induction false} FlipsRiseOrAreOvertaken(seed: bool, es: seq<Eval>)
    requires forall i :: 0 <= i < |es| && es[i].flipped ==> es[i].onsale
    ensures CountFlips(es) == RisingFlips(seed, es) + Overtaken(seed, es)
    ensures RisingFlips(seed, es) <= CountRises(seed, es)
  {
    if es != [] {
      FlipsRiseOrAreOvertaken(seed, es[..|es| - 1]);
    }
  }

  /** What a step records of the watch. */
  lemma StepEvaluates(s: System, l: Label, x: int)
    requires CanDo(s, l)
    ensures if Records(s, l, x)
            then EvalsOf(Do(s, l).log, x) == EvalsOf(s.log, x) + [EvalFor(s.jobs[l.job].poll, s.jobs[l.job].row)]
            else EvalsOf(Do(s, l).log, x) == EvalsOf(s.log, x)
  {
    match l
    case Begin(_) =>
    case Move(j, at, r) => MoveEvaluates(j, Local(s.db, s.log, s.jobs[j]), at, r, x);
    case Crash(j) => CrashCounts(s, j, x);
    case UserDoes(_) =>
  }

  /** The step stores the watch's signal and records its evaluation. */
  predicate Records(s: System, l: Label, x: int) {
    l.Move? && l.reply.Ok? && l.job in s.jobs && s.jobs[l.job].Record? && s.jobs[l.job].row.id == x
  }

  lemma {:induction false} FlipsAreOnSale(s: System, ls: seq<Label>, x: int)
    requires Begins(s, x) && IsRun(s, ls)
    ensures forall i :: 0 <= i < |EvalsOf(Run(s, ls).log, x)| && EvalsOf(Run(s, ls).log, x)[i].flipped ==>
              EvalsOf(Run(s, ls).log, x)[i].onsale
  {
    if ls != [] {
      var n := |ls| - 1;
      IsRunPrefix(s, ls, n);
      FlipsAreOnSale(s, ls[..n], x);
      var before := Run(s, ls[..n]);
      StepEvaluates(before, ls[n], x);
      if Records(before, ls[n], x) {
        FlipNeedsOffSignal(before.jobs[ls[n].job].poll, before.jobs[ls[n].job].row);
      }
    }
  }

  /**
   The exact count: on-sale alerts are the flips that rise, those overtaken by
   another record, those left out by jobs that ended, and those out right now. There
   is one alert per rising flip if and only if the other three are zero, and rising
   flips are at most the rising edges of the recorded signal.
   */
  lemma OnsaleAlertsExactly(s: System, ls: seq<Label>, x: int, seed: bool)
    requires Begins(s, x) && IsRun(s, ls)
    ensures var end, es := Run(s, ls), EvalsOf(Run(s, ls).log, x);
            && AlertCount(end.log, x) == RisingFlips(seed, es) + Overtaken(seed, es) + FlipsLeftOut(s, ls, x) + |OutJobs(end, x)|
            && RisingFlips(seed, es) <= CountRises(seed, es)
            && (AlertCount(end.log, x) == RisingFlips(seed, es)
                <==> Overtaken(seed, es) == 0 && FlipsLeftOut(s, ls, x) == 0 && OutJobs(end, x) == {})
  {
    AlertsAreAccountedFor(s, ls, x);
    FlipsAreOnSale(s, ls, x);
    FlipsRiseOrAreOvertaken(seed, EvalsOf(Run(s, ls).log, x));
  }

  // ---- what overtaking takes ----

  /** The signal as the log has it. */
  ghost function Signal(log: seq<Entry>, x: int, seed: bool): bool {
    Before(seed, EvalsOf(log, x), |EvalsOf(log, x)|)
  }

  /** The stored signal is the last one recorded, for as long as the watch exists. */
  ghost predicate StoresSignal(s: System, x: int, seed: bool) {
    && Consistent(s.db) && x < s.db.nextWatchId
    && (x in s.db.watches ==> s.db.watches[x].lastEvaluation == Signal(s.log, x, seed))
  }

  lemma MoveStoresSignal(s: System, j: nat, at: Time, r: Reply, x: int, seed: bool)
    requires StoresSignal(s, x, seed) && CanDo(s, Move(j, at, r))
    ensures StoresSignal(Do(s, Move(j, at, r)), x, seed)
  {
    var l := Local(s.db, s.log, s.jobs[j]);
    StepEvaluates(s, Move(j, at, r), x);
    MoveKeepsTables(j, l, at, r);
    MoveStores(j, l, at, r, x);
  }

  lemma MoveStores(job: nat, l: Local, at: Time, r: Reply, x: int)
    requires CanAnswer(l, r)
    ensures var l' := Advance(job, l, at, r);
            x in l'.db.watches ==>
              && x in l.db.watches
              && l'.db.watches[x].lastEvaluation == if l.pc.Record? && r.Ok? && l.pc.row.id == x
                                                    then EvalFor(l.pc.poll, l.pc.row).onsale
                                                    else l.db.watches[x].lastEvaluation
  {
  }

  lemma UserStoresSignal(s: System, a: Act, x: int, seed: bool)
    requires StoresSignal(s, x, seed)
    ensures StoresSignal(Do(s, UserDoes(a)), x, seed)
  {
    PerformKeepsConsistent(s.db, a);
    UserLeavesSignal(s.db, a, x);
  }

  lemma UserLeavesSignal(db: Db, a: Act, x: int)
    requires Consistent(db) && x < db.nextWatchId
    ensures x in Perform(db, a).watches ==>
              x in db.watches && Perform(db, a).watches[x].lastEvaluation == db.watches[x].lastEvaluation
  {
  }

  lemma StepStoresSignal(s: System, l: Label, x: int, seed: bool)
    requires StoresSignal(s, x, seed) && CanDo(s, l)
    ensures StoresSignal(Do(s, l), x, seed)
  {
    match l
    case Move(j, at, r) => MoveStoresSignal(s, j, at, r, x, seed);
    case UserDoes(a) => UserStoresSignal(s, a, x, seed);
    case _ => StepEvaluates(s, l, x);
  }

  lemma {:induction false} SignalIsStored(s: System, ls: seq<Label>, x: int)
    requires Begins(s, x) && x in s.db.watches && IsRun(s, ls)
    ensures StoresSignal(Run(s, ls), x, s.db.watches[x].lastEvaluation)
  {
    if ls != [] {
      var n := |ls| - 1;
      IsRunPrefix(s, ls, n);
      SignalIsStored(s, ls[..n], x);
      StepStoresSignal(Run(s, ls[..n]), ls[n], x, s.db.watches[x].lastEvaluation);
    }
  }

  /**
   The job listed this row of the watch at step i, with the signal as it then was,
   and has not recorded the watch since.
   */
  ghost predicate IsListedAt(s: System, ls: seq<Label>, j: nat, r: ActiveWatch, x: int, seed: bool, i: int) {
    && 0 <= i < |ls| && ls[i].Move? && ls[i].job == j && ls[i].reply.Rows? && r in ls[i].reply.rows
    && r.lastEvaluation == Signal(Run(s, ls[..i]).log, x, seed)
    && forall k :: i < k < |ls| ==> !RecordsAt(s, ls, k, j, x)
  }

  /** Step k of the run is job j recording the watch. */
  ghost predicate RecordsAt(s: System, ls: seq<Label>, k: int, j: nat, x: int)
    requires 0 <= k < |ls|
  {
    Records(Run(s, ls[..k]), ls[k], x) && ls[k].job == j
  }

  ghost predicate PendingWereListed(s: System, ls: seq<Label>, x: int, seed: bool) {
    forall j, r :: j in Run(s, ls).jobs && r in RowsOf(Run(s, ls).jobs[j]) && r.id == x ==>
      exists i :: IsListedAt(s, ls, j, r, x, seed, i)
  }

  lemma ListedStaysListed(s: System, ls: seq<Label>, l: Label, j: nat, r: ActiveWatch, x: int, seed: bool, i: int)
    requires IsListedAt(s, ls, j, r, x, seed, i) && !(Records(Run(s, ls), l, x) && l.job == j)
    ensures IsListedAt(s, ls + [l], j, r, x, seed, i)
  {
    var more := ls + [l];
    assert more[..i] == ls[..i] && more[..|ls|] == ls;
    forall k | i < k < |more| ensures !RecordsAt(s, more, k, j, x) {
      if k < |ls| {
        assert more[..k] == ls[..k];
        assert !RecordsAt(s, ls, k, j, x);
      }
    }
  }

  lemma JustListed(s: System, ls: seq<Label>, l: Label, r: ActiveWatch, x: int, seed: bool)
    requires StoresSignal(Run(s, ls), x, seed) && CanDo(Run(s, ls), l) && r.id == x
    requires l.Move? && Run(s, ls).jobs[l.job].List? && l.reply.Rows? && r in l.reply.rows
    ensures IsListedAt(s, ls + [l], l.job, r, x, seed, |ls|)
  {
    assert (ls + [l])[..|ls|] == ls;
    var i :| 0 <= i < |l.reply.rows| && l.reply.rows[i] == r;
    assert IsRowOf(Run(s, ls).db, l.reply.rows[i]);
  }

  /** A row pending after a call was pending before it, and was not the one just recorded, or has just been listed. */
  ghost predicate CameFrom(l: Local, r: Reply, row: ActiveWatch) {
    || (row in RowsOf(l.pc) && !(l.pc.Record? && r.Ok? && l.pc.row.id == row.id))
    || (l.pc.List? && r.Rows? && row in r.rows)
  }

  lemma PendingAfterLoopCall(job: nat, l: Local, at: Time, r: Reply, row: ActiveWatch)
    requires CanAnswer(l, r) && !l.pc.Record? && !l.pc.List? && row in RowsOf(Advance(job, l, at, r).pc)
    ensures row in RowsOf(l.pc)
  {
  }

  lemma PendingCameFrom(job: nat, l: Local, at: Time, r: Reply, row: ActiveWatch)
    requires IsWellPlaced(l.pc) && CanAnswer(l, r) && row in RowsOf(Advance(job, l, at, r).pc)
    ensures CameFrom(l, r, row)
  {
    if l.pc.List? {
      if r.Rows? {
        NextRowsAreRows(l.pc.poll, r.rows, false);
      }
    } else if l.pc.Record? {
      if r.Ok? {
        NextRowsAreRows(l.pc.poll, l.pc.rows, l.pc.closing);
        RestAreOthers(l.pc.row, l.pc.rows);
      }
    } else {
      PendingAfterLoopCall(job, l, at, r, row);
    }
  }

  lemma StepKeepsListed(s: System, ls: seq<Label>, l: Label, x: int, seed: bool, j: nat, r: ActiveWatch)
    requires JobsPlaced(Run(s, ls)) && StoresSignal(Run(s, ls), x, seed) && PendingWereListed(s, ls, x, seed)
    requires CanDo(Run(s, ls), l) && r.id == x
    requires j in Do(Run(s, ls), l).jobs && r in RowsOf(Do(Run(s, ls), l).jobs[j])
    ensures exists i :: IsListedAt(s, ls + [l], j, r, x, seed, i)
  {
    var before := Run(s, ls);
    if l.Move? && l.job == j {
      var local := Local(before.db, before.log, before.jobs[j]);
      PendingCameFrom(j, local, l.at, l.reply, r);
      if before.jobs[j].List? && l.reply.Rows? && r in l.reply.rows {
        JustListed(s, ls, l, r, x, seed);
        return;
      }
    }
    assert j in before.jobs && r in RowsOf(before.jobs[j]) && !(Records(before, l, x) && l.job == j);
    var i :| IsListedAt(s, ls, j, r, x, seed, i);
    ListedStaysListed(s, ls, l, j, r, x, seed, i);
  }

  lemma {:induction false} RowsWereListedOnce(s: System, ls: seq<Label>, x: int)
    requires Begins(s, x) && x in s.db.watches && IsRun(s, ls)
    ensures PendingWereListed(s, ls, x, s.db.watches[x].lastEvaluation)
  {
    if ls != [] {
      IsRunPrefix(s, ls, |ls| - 1);
      RowsWereListedOnce(s, ls[..|ls| - 1], x);
      LastStepWereListed(s, ls, x);
    }
  }

  lemma LastStepWereListed(s: System, ls: seq<Label>, x: int)
    requires Begins(s, x) && x in s.db.watches && IsRun(s, ls) && ls != []
    requires PendingWereListed(s, ls[..|ls| - 1], x, s.db.watches[x].lastEvaluation)
    ensures PendingWereListed(s, ls, x, s.db.watches[x].lastEvaluation)
  {
    var n := |ls| - 1;
    IsRunPrefix(s, ls, n);
    var t := BeforeLast(s, ls, ls[..n], x);
    assert ls == ls[..n] + [ls[n]] && ls[..n + 1] == ls;
    StepWereListed(s, ls[..n], ls[n], ls, x, s.db.watches[x].lastEvaluation);
  }

  lemma BeforeLast(s: System, ls: seq<Label>, front: seq<Label>, x: int) returns (t: System)
    requires Begins(s, x) && x in s.db.watches && IsRun(s, ls) && ls != [] && front == ls[..|ls| - 1] && IsRun(s, front)
    ensures t == Run(s, front) && CanDo(t, ls[|ls| - 1])
    ensures JobsPlaced(t) && StoresSignal(t, x, s.db.watches[x].lastEvaluation)
  {
    t := NthStep(s, ls, |ls| - 1);
    AlertsAreAccountedFor(s, front, x);
    SignalIsStored(s, front, x);
  }

  lemma StepWereListed(s: System, ls: seq<Label>, l: Label, more: seq<Label>, x: int, seed: bool)
    requires JobsPlaced(Run(s, ls)) && StoresSignal(Run(s, ls), x, seed) && PendingWereListed(s, ls, x, seed)
    requires CanDo(Run(s, ls), l) && more == ls + [l]
    ensures PendingWereListed(s, more, x, seed)
  {
    assert more[..|ls|] == ls;
    forall j, r | j in Run(s, more).jobs && r in RowsOf(Run(s, more).jobs[j]) && r.id == x
      ensures exists i :: IsListedAt(s, more, j, r, x, seed, i)
    {
      StepKeepsListed(s, ls, l, x, seed, j, r);
    }
  }

  ghost predicate NoRecord(s: System, ls: seq<Label>, i: nat, n: nat, x: int)
    requires n <= |ls|
  {
    forall k {:trigger Records(Run(s, ls[..k]), ls[k], x)} :: i <= k < n ==> !Records(Run(s, ls[..k]), ls[k], x)
  }

  /** The state before step n, and the step. */
  lemma NthStep(s: System, ls: seq<Label>, n: nat) returns (t: System)
    requires IsRun(s, ls) && n < |ls|
    ensures t == Run(s, ls[..n]) && CanDo(t, ls[n]) && Run(s, ls[..n + 1]) == Do(t, ls[n])
  {
    t := Run(s, ls[..n]);
    assert ls[..n + 1][..n] == ls[..n];
  }

  lemma UnrecordedStep(t: System, l: Label, t': System, x: int)
    requires CanDo(t, l) && t' == Do(t, l) && !Records(t, l, x)
    ensures EvalsOf(t'.log, x) == EvalsOf(t.log, x)
  {
    StepEvaluates(t, l, x);
  }

  /** Every state of a run, from the first to the last. */
  ghost predicate IsTrace(ts: seq<System>, ls: seq<Label>) {
    |ts| == |ls| + 1 && forall m {:trigger ls[m]} :: 0 <= m < |ls| ==> IsStep(ts[m], ls[m], ts[m + 1])
  }

  ghost predicate IsStep(t: System, l: Label, t': System) {
    CanDo(t, l) && t' == Do(t, l)
  }

  lemma TraceOf(s: System, ls: seq<Label>) returns (ts: seq<System>)
    requires IsRun(s, ls)
    ensures IsTrace(ts, ls) && forall m :: 0 <= m <= |ls| ==> ts[m] == Run(s, ls[..m])
  {
    ts := seq(|ls| + 1, m requires 0 <= m <= |ls| => Run(s, ls[..m]));
    forall m | 0 <= m < |ls| ensures IsStep(ts[m], ls[m], ts[m + 1]) {
      var t := NthStep(s, ls, m);
    }
  }

  /** Without a record of the watch, its evaluations stay as they were. */
  lemma {:induction false} UnrecordedStretch(ts: seq<System>, ls: seq<Label>, i: nat, n: nat, x: int)
    requires IsTrace(ts, ls) && i <= n <= |ls| && forall k :: i <= k < n ==> !Records(ts[k], ls[k], x)
    ensures EvalsOf(ts[n].log, x) == EvalsOf(ts[i].log, x)
    decreases n
  {
    if i < n {
      UnrecordedStretch(ts, ls, i, n - 1, x);
      UnrecordedStep(ts[n - 1], ls[n - 1], ts[n], x);
    }
  }

  /** Between two steps another job recorded the watch. */
  ghost predicate OtherRecordsBetween(s: System, ls: seq<Label>, from: int, until: int, j: nat, x: int)
    requires 0 <= from <= until <= |ls|
  {
    exists k :: from < k < until && Records(Run(s, ls[..k]), ls[k], x) && ls[k].job != j
  }

  /** A changed signal takes a record. */
  lemma SignalNeedsRecord(s: System, ls: seq<Label>, i: nat, n: nat, x: int, seed: bool)
    requires IsRun(s, ls) && i <= n <= |ls|
    requires Signal(Run(s, ls[..i]).log, x, seed) != Signal(Run(s, ls[..n]).log, x, seed)
    ensures !NoRecord(s, ls, i, n, x)
  {
    if NoRecord(s, ls, i, n, x) {
      var ts := TraceOf(s, ls);
      UnrecordedStretch(ts, ls, i, n, x);
    }
  }

  /** The job about to record the watch listed it, with the signal it then had. */
  lemma RecordedWasListed(s: System, ls: seq<Label>, x: int, j: nat) returns (i: nat)
    requires Begins(s, x) && x in s.db.watches && IsRun(s, ls)
    requires j in Run(s, ls).jobs && Run(s, ls).jobs[j].Record? && Run(s, ls).jobs[j].row.id == x
    ensures IsListedAt(s, ls, j, Run(s, ls).jobs[j].row, x, s.db.watches[x].lastEvaluation, i)
  {
    RowsWereListedOnce(s, ls, x);
    assert Run(s, ls).jobs[j].row in RowsOf(Run(s, ls).jobs[j]);
    i :| IsListedAt(s, ls, j, Run(s, ls).jobs[j].row, x, s.db.watches[x].lastEvaluation, i);
  }

  /**
   A flip is overtaken only by overlap: between the step at which its job listed the
   watch and the one at which it records it, another job recorded that watch.
   */
  lemma OvertakenMeansOverlap(s: System, ls: seq<Label>, x: int, n: nat) returns (i: nat)
    requires Begins(s, x) && x in s.db.watches && IsRun(s, ls) && n < |ls|
    requires Records(Run(s, ls[..n]), ls[n], x)
    requires EvalFor(Run(s, ls[..n]).jobs[ls[n].job].poll, Run(s, ls[..n]).jobs[ls[n].job].row).flipped
    requires Signal(Run(s, ls[..n]).log, x, s.db.watches[x].lastEvaluation)
    ensures i < n && ls[i].Move? && ls[i].job == ls[n].job && ls[i].reply.Rows?
    ensures OtherRecordsBetween(s, ls, i, n, ls[n].job, x)
  {
    IsRunPrefix(s, ls, n);
    i := RecordedWasListed(s, ls[..n], x, ls[n].job);
    FlipNeedsOffSignal(Run(s, ls[..n]).jobs[ls[n].job].poll, Run(s, ls[..n]).jobs[ls[n].job].row);
    assert ls[..n][..i] == ls[..i];
    SignalNeedsRecord(s, ls, i, n, x, s.db.watches[x].lastEvaluation);
    OtherRecorded(s, ls, ls[n].job, Run(s, ls[..n]).jobs[ls[n].job].row, x, s.db.watches[x].lastEvaluation, i, n);
  }

  lemma OtherRecorded(s: System, ls: seq<Label>, j: nat, r: ActiveWatch, x: int, seed: bool, i: nat, n: nat)
    requires i < n <= |ls| && IsListedAt(s, ls[..n], j, r, x, seed, i)
    requires !NoRecord(s, ls, i, n, x)
    ensures OtherRecordsBetween(s, ls, i, n, j, x)
  {
    var k :| i <= k < n && Records(Run(s, ls[..k]), ls[k], x);
    assert ls[..n][i] == ls[i] && k != i;
    assert ls[..n][..k] == ls[..k];
    assert !RecordsAt(s, ls[..n], k, j, x);
  }

  // ---- one job at a time ----

  ghost predicate AllDone(s: System) {
    forall j :: j in s.jobs ==> s.jobs[j].Done?
  }

  /** A job begins only when no other is under way. */
  ghost predicate IsSequential(s: System, ls: seq<Label>) {
    AllDone(s) && forall i :: 0 <= i < |ls| && ls[i].Begin? ==> AllDone(Run(s, ls[..i]))
  }

  ghost predicate AtMostOne(s: System) {
    forall i, j :: i in s.jobs && j in s.jobs && i != j ==> s.jobs[i].Done? || s.jobs[j].Done?
  }

  lemma StepKeepsOne(s: System, l: Label)
    requires AtMostOne(s) && CanDo(s, l) && (l.Begin? ==> AllDone(s))
    ensures AtMostOne(Do(s, l))
  {
    if l.Move? {
      assert !s.jobs[l.job].Done?;
    }
  }

  lemma {:induction false} SequentialMeansOne(s: System, ls: seq<Label>)
    requires IsSequential(s, ls) && IsRun(s, ls)
    ensures AtMostOne(Run(s, ls))
  {
    if ls != [] {
      var n := |ls| - 1;
      IsRunPrefix(s, ls, n);
      SequentialPrefix(s, ls, n);
      SequentialMeansOne(s, ls[..n]);
      StepKeepsOne(Run(s, ls[..n]), ls[n]);
    }
  }

  lemma SequentialPrefix(s: System, ls: seq<Label>, n: nat)
    requires IsSequential(s, ls) && n <= |ls|
    ensures IsSequential(s, ls[..n])
  {
    assert forall i :: 0 <= i < n ==> ls[..n][..i] == ls[..i];
  }

  predicate IsDone(s: System, j: nat) {
    j in s.jobs && s.jobs[j].Done?
  }

  predicate IsBusy(s: System, j: nat) {
    j in s.jobs && !s.jobs[j].Done?
  }

  lemma StepKeepsDone(t: System, l: Label, t': System, j: nat)
    requires JobsNumbered(t) && CanDo(t, l) && t' == Do(t, l) && IsDone(t, j)
    ensures IsDone(t', j)
  {
  }

  /** A job that is done stays done. */
  lemma {:induction false} DoneStays(ts: seq<System>, ls: seq<Label>, k: nat, n: nat, j: nat)
    requires IsTrace(ts, ls) && JobsNumbered(ts[0]) && k <= n <= |ls| && IsDone(ts[k], j)
    ensures IsDone(ts[n], j)
    decreases n
  {
    if k < n {
      DoneStays(ts, ls, k, n - 1, j);
      NumberedStays(ts, ls, n - 1);
      StepKeepsDone(ts[n - 1], ls[n - 1], ts[n], j);
    }
  }

  lemma {:induction false} NumberedStays(ts: seq<System>, ls: seq<Label>, n: nat)
    requires IsTrace(ts, ls) && JobsNumbered(ts[0]) && n <= |ls|
    ensures JobsNumbered(ts[n])
    decreases n
  {
    if n > 0 {
      NumberedStays(ts, ls, n - 1);
      StepKeepsNumbers(ts[n - 1], ls[n - 1], ts[n]);
    }
  }

  lemma StepKeepsNumbers(t: System, l: Label, t': System)
    requires JobsNumbered(t) && CanDo(t, l) && t' == Do(t, l)
    ensures JobsNumbered(t')
  {
  }

  /** One job at a time, no flip finds its signal already on sale. */
  lemma SequentialFlipRises(s: System, ls: seq<Label>, x: int, n: nat)
    requires Begins(s, x) && x in s.db.watches && IsRun(s, ls) && IsSequential(s, ls) && n < |ls|
    requires Records(Run(s, ls[..n]), ls[n], x)
    requires EvalFor(Run(s, ls[..n]).jobs[ls[n].job].poll, Run(s, ls[..n]).jobs[ls[n].job].row).flipped
    ensures !Signal(Run(s, ls[..n]).log, x, s.db.watches[x].lastEvaluation)
  {
    if Signal(Run(s, ls[..n]).log, x, s.db.watches[x].lastEvaluation) {
      var i := OvertakenMeansOverlap(s, ls, x, n);
      var k :| i < k < n && Records(Run(s, ls[..k]), ls[k], x) && ls[k].job != ls[n].job;
      NoOverlap(s, ls, i, k, n);
    }
  }

  /** A job that moves is under way. */
  lemma MoverIsBusy(s: System, ls: seq<Label>, n: nat)
    requires IsRun(s, ls) && n < |ls| && ls[n].Move?
    ensures IsBusy(Run(s, ls[..n]), ls[n].job)
  {
    assert CanDo(Run(s, ls[..n]), ls[n]);
    OnlyBusyMove(Run(s, ls[..n]), ls[n]);
  }

  lemma OnlyBusyMove(t: System, l: Label)
    requires CanDo(t, l) && l.Move?
    ensures IsBusy(t, l.job)
  {
  }

  lemma OneBusy(s: System, ls: seq<Label>, n: nat, i: nat, j: nat)
    requires IsRun(s, ls) && IsSequential(s, ls) && n <= |ls|
    requires IsBusy(Run(s, ls[..n]), i) && IsBusy(Run(s, ls[..n]), j)
    ensures i == j
  {
    IsRunPrefix(s, ls, n);
    SequentialPrefix(s, ls, n);
    SequentialMeansOne(s, ls[..n]);
  }

  /** A job that moved once and moves again later was under way all the time. */
  lemma BusyBetween(s: System, ls: seq<Label>, i: nat, k: nat, n: nat)
    requires JobsNumbered(s) && IsRun(s, ls) && i <= k <= n < |ls|
    requires ls[i].Move? && ls[n].Move? && ls[i].job == ls[n].job
    ensures IsBusy(Run(s, ls[..k]), ls[n].job)
  {
    var j := ls[n].job;
    var ts := TraceOf(s, ls);
    assert ls[..0] == [];
    MoverIsBusy(s, ls, i);
    JobStays(ts, ls, i, k, j);
    MoverIsBusy(s, ls, n);
    if IsDone(ts[k], j) {
      DoneStays(ts, ls, k, n, j);
    }
  }

  /** One job at a time, no other job moves between two moves of a job. */
  lemma NoOverlap(s: System, ls: seq<Label>, i: nat, k: nat, n: nat)
    requires JobsNumbered(s) && IsRun(s, ls) && IsSequential(s, ls) && i < k < n < |ls|
    requires ls[i].Move? && ls[k].Move? && ls[n].Move? && ls[i].job == ls[n].job
    ensures ls[k].job == ls[n].job
  {
    BusyBetween(s, ls, i, k, n);
    MoverIsBusy(s, ls, k);
    OneBusy(s, ls, k, ls[k].job, ls[n].job);
  }

  lemma StepKeepsJobs(t: System, l: Label)
    ensures forall j :: j in t.jobs ==> j in Do(t, l).jobs
  {
  }

  lemma {:induction false} JobStays(ts: seq<System>, ls: seq<Label>, i: nat, n: nat, j: nat)
    requires IsTrace(ts, ls) && i <= n <= |ls| && j in ts[i].jobs
    ensures j in ts[n].jobs
    decreases n
  {
    if i < n {
      JobStays(ts, ls, i, n - 1, j);
      StepKeepsJobs(ts[n - 1], ls[n - 1]);
    }
  }

  lemma OvertakenAppended(seed: bool, es: seq<Eval>, e: Eval)
    ensures Overtaken(seed, es + [e]) == Overtaken(seed, es) + if e.flipped && Before(seed, es, |es|) then 1 else 0
  {
    assert (es + [e])[..|es|] == es;
  }

  lemma {:induction false} SequentialOvertakesNone(s: System, ls: seq<Label>, x: int)
    requires Begins(s, x) && x in s.db.watches && IsRun(s, ls) && IsSequential(s, ls)
    ensures Overtaken(s.db.watches[x].lastEvaluation, EvalsOf(Run(s, ls).log, x)) == 0
  {
    if ls != [] {
      var n := |ls| - 1;
      var before := Run(s, ls[..n]);
      IsRunPrefix(s, ls, n);
      SequentialPrefix(s, ls, n);
      SequentialOvertakesNone(s, ls[..n], x);
      StepEvaluates(before, ls[n], x);
      if Records(before, ls[n], x) {
        var e := EvalFor(before.jobs[ls[n].job].poll, before.jobs[ls[n].job].row);
        OvertakenAppended(s.db.watches[x].lastEvaluation, EvalsOf(before.log, x), e);
        if e.flipped {
          SequentialFlipRises(s, ls, x, n);
        }
      }
    }
  }

  /**
   With one job at a time, whatever fails and whatever users do in the middle of a
   poll: at most one on-sale alert for each rising edge of the recorded signal, one
   for each job that ended with the flip out, and one if a job has it out right now.
   It is exactly one per recorded flip when no job ended so and none has it out.
   */
  lemma SequentialAlertsBounded(s: System, ls: seq<Label>, x: int)
    requires Begins(s, x) && x in s.db.watches && IsRun(s, ls) && IsSequential(s, ls)
    ensures var end, es := Run(s, ls), EvalsOf(Run(s, ls).log, x);
            && AlertCount(end.log, x)
               <= CountRises(s.db.watches[x].lastEvaluation, es) + FlipsLeftOut(s, ls, x) + |OutJobs(end, x)|
            && (AlertCount(end.log, x) == CountFlips(es) <==> FlipsLeftOut(s, ls, x) == 0 && OutJobs(end, x) == {})
  {
    var seed, es := s.db.watches[x].lastEvaluation, EvalsOf(Run(s, ls).log, x);
    OnsaleAlertsExactly(s, ls, x, seed);
    SequentialOvertakesNone(s, ls, x);
    FlipsAreOnSale(s, ls, x);
    FlipsRiseOrAreOvertaken(seed, es);
  }

  // ---- watches created on the way ----

  /** Everything under way or logged concerns ids already given out. */
  ghost predicate OnlyOldIds(s: System) {
    && (forall j, r :: j in s.jobs && r in RowsOf(s.jobs[j]) ==> r.id < s.db.nextWatchId)
    && forall x :: x >= s.db.nextWatchId ==> AlertCount(s.log, x) == 0 && EvalsOf(s.log, x) == []
  }

  lemma MoveKeepsOldIds(s: System, j: nat, at: Time, r: Reply)
    requires Consistent(s.db) && JobsPlaced(s) && OnlyOldIds(s) && CanDo(s, Move(j, at, r))
    ensures OnlyOldIds(Do(s, Move(j, at, r)))
  {
    var l, s' := Local(s.db, s.log, s.jobs[j]), Do(s, Move(j, at, r));
    MoveKeepsTables(j, l, at, r);
    forall i, row | i in s'.jobs && row in RowsOf(s'.jobs[i]) ensures row.id < s'.db.nextWatchId {
      if i == j {
        PendingCameFrom(j, l, at, r, row);
        if l.pc.List? && r.Rows? && row in r.rows {
          var k :| 0 <= k < |r.rows| && r.rows[k] == row;
          assert IsRowOf(s.db, r.rows[k]);
        }
      }
    }
    forall x | x >= s'.db.nextWatchId ensures AlertCount(s'.log, x) == 0 && EvalsOf(s'.log, x) == [] {
      MoveIsBalanced(j, l, at, r, x);
      MoveEvaluates(j, l, at, r, x);
      NotInHand(s, j, x);
      NotInHandAfter(s', j, x);
    }
  }

  lemma NotInHand(s: System, j: nat, x: int)
    requires j in s.jobs && x >= s.db.nextWatchId
    requires forall r :: r in RowsOf(s.jobs[j]) ==> r.id < s.db.nextWatchId
    ensures !FlipIsOut(s.jobs[j], x) && (HasRow(s.jobs[j]) ==> s.jobs[j].row.id != x)
  {
    assert HasRow(s.jobs[j]) ==> s.jobs[j].row in RowsOf(s.jobs[j]);
  }

  lemma NotInHandAfter(s: System, j: nat, x: int)
    requires j in s.jobs && x >= s.db.nextWatchId
    requires forall i, r :: i in s.jobs && r in RowsOf(s.jobs[i]) ==> r.id < s.db.nextWatchId
    ensures !FlipIsOut(s.jobs[j], x)
  {
    NotInHand(s, j, x);
  }

  lemma CrashKeepsOldIds(s: System, j: nat)
    requires OnlyOldIds(s) && CanDo(s, Crash(j))
    ensures OnlyOldIds(Do(s, Crash(j)))
  {
    forall x ensures AlertCount(Do(s, Crash(j)).log, x) == AlertCount(s.log, x)
                  && EvalsOf(Do(s, Crash(j)).log, x) == EvalsOf(s.log, x) {
      CrashCounts(s, j, x);
    }
  }

  lemma UserKeepsOldIds(s: System, a: Act)
    requires Consistent(s.db) && OnlyOldIds(s)
    ensures Consistent(Perform(s.db, a)) && OnlyOldIds(Do(s, UserDoes(a)))
  {
    PerformKeepsConsistent(s.db, a);
  }

  lemma StepKeepsOldIds(s: System, l: Label)
    requires Consistent(s.db) && JobsPlaced(s) && OnlyOldIds(s) && CanDo(s, l)
    ensures Consistent(Do(s, l).db) && OnlyOldIds(Do(s, l))
  {
    match l
    case Begin(_) =>
    case Move(j, at, r) =>
      MoveKeepsTables(j, Local(s.db, s.log, s.jobs[j]), at, r);
      MoveKeepsOldIds(s, j, at, r);
    case Crash(j) =>
      CrashKeepsOldIds(s, j);
    case UserDoes(a) => UserKeepsOldIds(s, a);
  }

  lemma {:induction false} OldIdsOnly(s: System, ls: seq<Label>)
    requires Fresh(s) && IsRun(s, ls)
    ensures Consistent(Run(s, ls).db) && JobsPlaced(Run(s, ls)) && OnlyOldIds(Run(s, ls))
  {
    FreshBegins(s, 0);
    AlertsAreAccountedFor(s, ls, 0);
    if ls != [] {
      var n := |ls| - 1;
      IsRunPrefix(s, ls, n);
      OldIdsOnly(s, ls[..n]);
      StepKeepsOldIds(Run(s, ls[..n]), ls[n]);
    }
  }

  /** A watch created at any moment of any run begins its life there, so the accounts above hold for it from then on. */
  lemma CreatedWatchBegins(s: System, ls: seq<Label>, a: Act)
    requires Fresh(s) && IsRun(s, ls) && a.ActInsertWatch?
    ensures Begins(Do(Run(s, ls), UserDoes(a)), Run(s, ls).db.nextWatchId)
  {
    OldIdsOnly(s, ls);
    PerformKeepsConsistent(Run(s, ls).db, a);
  }
}
