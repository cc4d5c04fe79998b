/**
 Scheduler, bounded jobs channel, worker pool and the order in which main takes
 them down (cmd/api/main.go, internal/scheduler/scheduler.go, StartPool in
 internal/worker/worker.go), as one state machine over their channel operations.
 */
module Pipeline {

  datatype Scheduler = Idle | Ticking(rest: seq<int>) | Stopped

  /** A worker processes the job with the given place in the order of receipt. */
  datatype Hand = Waiting | Processing(job: nat) | Exited

  datatype Main = Serving | AwaitScheduler | AwaitWorkers | Complete

  /**
   The channel holds `queue`; `sent` and `received` record everything that ever
   went in and came out, and `returned` the jobs whose ProcessEvent has returned.
   A send on, or a second close of, a closed channel panics.
   */
  datatype State = State(
    cancelled: bool,
    queue: seq<int>,
    closed: bool,
    sched: Scheduler,
    workers: seq<Hand>,
    main: Main,
    sent: seq<int>,
    received: seq<int>,
    returned: set<nat>,
    panicked: bool)

  datatype Label =
    | Cancel
    | Tick(due: seq<int>)
    | Send
    | Leave
    | Stop
    | Notice
    | CloseJobs
    | Receive(w: nat)
    | Return(w: nat)
    | Exit(w: nat)
    | Finish

  /** The jobs channel has one slot per worker. */
  function Capacity(s: State): nat {
    |s.workers|
  }

  predicate CanDo(maxTick: nat, s: State, l: Label) {
    match l
    case Cancel => !s.cancelled
    case Tick(due) => s.sched.Idle? && |due| <= maxTick
    case Send => s.sched.Ticking? && s.sched.rest != [] && (s.closed || |s.queue| < Capacity(s))
    case Leave => s.sched.Ticking? && (s.sched.rest == [] || s.cancelled || (|s.queue| >= Capacity(s) && !s.closed))
    case Stop => s.sched.Idle? && s.cancelled
    case Notice => s.main.Serving? && s.cancelled
    case CloseJobs => s.main.AwaitScheduler? && s.sched.Stopped?
    case Receive(w) => w < |s.workers| && s.workers[w].Waiting? && s.queue != []
    case Return(w) => w < |s.workers| && s.workers[w].Processing?
    case Exit(w) => w < |s.workers| && s.workers[w].Waiting? && s.queue == [] && s.closed
    case Finish => s.main.AwaitWorkers? && forall w :: 0 <= w < |s.workers| ==> s.workers[w].Exited?
  }

  function Do(s: State, l: Label): State {
    match l
    case Cancel => s.(cancelled := true)
    case Tick(due) => s.(sched := Ticking(due))
    case Send =>
      if !s.sched.Ticking? || s.sched.rest == [] then s
      else if s.closed then s.(panicked := true)
      else s.(queue := s.queue + [s.sched.rest[0]], sent := s.sent + [s.sched.rest[0]], sched := Ticking(s.sched.rest[1..]))
    case Leave => s.(sched := Idle)
    case Stop => s.(sched := Stopped)
    case Notice => s.(main := AwaitScheduler)
    case CloseJobs => if s.closed then s.(panicked := true) else s.(closed := true, main := AwaitWorkers)
    case Receive(w) =>
      if w >= |s.workers| || s.queue == [] then s
      else s.(queue := s.queue[1..], received := s.received + [s.queue[0]], workers := s.workers[w := Processing(|s.received|)])
    case Return(w) =>
      if w >= |s.workers| || !s.workers[w].Processing? then s
      else s.(workers := s.workers[w := Waiting], returned := s.returned + {s.workers[w].job})
    case Exit(w) => if w >= |s.workers| then s else s.(workers := s.workers[w := Exited])
    case Finish => s.(main := Complete)
  }

  function Run(s: State, ls: seq<Label>): State {
    if ls == [] then s else Do(Run(s, ls[..|ls| - 1]), ls[|ls| - 1])
  }

  ghost predicate IsRun(maxTick: nat, s: State, ls: seq<Label>) {
    forall i :: 0 <= i < |ls| ==> CanDo(maxTick, Run(s, ls[..i]), ls[i])
  }

  /** The service right after start-up. */
  function Launch(workers: nat): State {
    State(false, [], false, Idle, seq(workers, i => Waiting), Serving, [], [], {}, false)
  }

  // ---- what every step keeps ----

  /** Nothing is lost, duplicated or reordered between the two ends of the channel. */
  predicate ChannelInv(s: State) {
    s.sent == s.received + s.queue && |s.queue| <= Capacity(s)
  }

  /** Each job taken off the channel is with exactly one worker or has returned, never both. */
  ghost predicate JobsInv(s: State) {
    && (forall j :: j in s.returned ==> j < |s.received|)
    && (forall w :: 0 <= w < |s.workers| && s.workers[w].Processing? ==>
          s.workers[w].job < |s.received| && s.workers[w].job !in s.returned)
    && (forall v, w :: 0 <= v < w < |s.workers| && s.workers[v].Processing? && s.workers[w].Processing? ==>
          s.workers[v].job != s.workers[w].job)
    && (forall j :: 0 <= j < |s.received| && j !in s.returned ==>
          exists w :: 0 <= w < |s.workers| && s.workers[w] == Processing(j))
  }

  /** The order of shutdown: nothing is closed before the scheduler has stopped, no worker leaves an open or non-empty channel. */
  predicate OrderInv(s: State) {
    && !s.panicked
    && (s.closed <==> s.main.AwaitWorkers? || s.main.Complete?)
    && (s.closed ==> s.sched.Stopped?)
    && (s.sched.Stopped? || !s.main.Serving? ==> s.cancelled)
    && (forall w :: 0 <= w < |s.workers| && s.workers[w].Exited? ==> s.closed && s.queue == [])
    && (s.main.Complete? ==> forall w :: 0 <= w < |s.workers| ==> s.workers[w].Exited?)
  }

  ghost predicate PipelineInv(s: State) {
    ChannelInv(s) && JobsInv(s) && OrderInv(s)
  }

  lemma ReceiveKeepsJobs(s: State, w: nat)
    requires JobsInv(s) && CanDo(0, s, Receive(w))
    ensures JobsInv(Do(s, Receive(w)))
  {
    var s' := Do(s, Receive(w));
    forall j | 0 <= j < |s'.received| && j !in s'.returned
      ensures exists v :: 0 <= v < |s'.workers| && s'.workers[v] == Processing(j)
    {
      if j == |s.received| {
        assert s'.workers[w] == Processing(j);
      } else {
        var v :| 0 <= v < |s.workers| && s.workers[v] == Processing(j);
        assert s'.workers[v] == Processing(j);
      }
    }
  }

  lemma ReturnKeepsJobs(s: State, w: nat)
    requires JobsInv(s) && CanDo(0, s, Return(w))
    ensures JobsInv(Do(s, Return(w)))
  {
    var s' := Do(s, Return(w));
    forall j | 0 <= j < |s'.received| && j !in s'.returned
      ensures exists v :: 0 <= v < |s'.workers| && s'.workers[v] == Processing(j)
    {
      var v :| 0 <= v < |s.workers| && s.workers[v] == Processing(j);
      assert s'.workers[v] == Processing(j);
    }
  }

  lemma ExitKeepsJobs(s: State, w: nat)
    requires JobsInv(s) && CanDo(0, s, Exit(w))
    ensures JobsInv(Do(s, Exit(w)))
  {
    var s' := Do(s, Exit(w));
    forall j | 0 <= j < |s'.received| && j !in s'.returned
      ensures exists v :: 0 <= v < |s'.workers| && s'.workers[v] == Processing(j)
    {
      var v :| 0 <= v < |s.workers| && s.workers[v] == Processing(j);
      assert s'.workers[v] == Processing(j);
    }
  }

  lemma StepKeepsJobs(maxTick: nat, s: State, l: Label)
    requires JobsInv(s) && CanDo(maxTick, s, l)
    ensures JobsInv(Do(s, l))
  {
    match l
    case Receive(w) => ReceiveKeepsJobs(s, w);
    case Return(w) => ReturnKeepsJobs(s, w);
    case Exit(w) => ExitKeepsJobs(s, w);
    case _ =>
      var s' := Do(s, l);
      assert s'.workers == s.workers && s'.received == s.received && s'.returned == s.returned;
  }

  lemma StepKeepsChannel(maxTick: nat, s: State, l: Label)
    requires ChannelInv(s) && CanDo(maxTick, s, l)
    ensures ChannelInv(Do(s, l)) && |Do(s, l).workers| == |s.workers|
  {
    match l
    case Send => assert s.received + s.queue + [s.sched.rest[0]] == s.received + (s.queue + [s.sched.rest[0]]);
    case Receive(_) => assert s.received + s.queue == s.received + [s.queue[0]] + s.queue[1..];
    case _ =>
  }

  lemma StepKeepsPipeline(maxTick: nat, s: State, l: Label)
    requires PipelineInv(s) && CanDo(maxTick, s, l)
    ensures PipelineInv(Do(s, l)) && |Do(s, l).workers| == |s.workers|
  {
    StepKeepsJobs(maxTick, s, l);
    StepKeepsChannel(maxTick, s, l);
  }

  lemma {:induction false} PipelineHolds(maxTick: nat, workers: nat, ls: seq<Label>)
    requires IsRun(maxTick, Launch(workers), ls)
    ensures PipelineInv(Run(Launch(workers), ls)) && |Run(Launch(workers), ls).workers| == workers
  {
    if ls != [] {
      var n := |ls| - 1;
      forall i | 0 <= i < n ensures CanDo(maxTick, Run(Launch(workers), ls[..n][..i]), ls[..n][i]) {
        assert ls[..n][..i] == ls[..i];
      }
      PipelineHolds(maxTick, workers, ls[..n]);
      StepKeepsPipeline(maxTick, Run(Launch(workers), ls[..n]), ls[n]);
    }
  }

  /** At every moment of every run: no send on a closed channel, bounded queue, first in first out. */
  lemma NoPanicAndFifo(maxTick: nat, workers: nat, ls: seq<Label>)
    requires IsRun(maxTick, Launch(workers), ls)
    ensures var s := Run(Launch(workers), ls);
            && !s.panicked && !(s.closed && s.sched.Ticking?)
            && |s.queue| <= workers && s.sent == s.received + s.queue
  {
    PipelineHolds(maxTick, workers, ls);
  }

  /** When shutdown is complete, every event id ever enqueued was received, in order, and its one ProcessEvent call has returned. */
  lemma ShutdownLosesNothing(maxTick: nat, workers: nat, ls: seq<Label>)
    requires IsRun(maxTick, Launch(workers), ls) && workers >= 1 && Run(Launch(workers), ls).main.Complete?
    ensures var s := Run(Launch(workers), ls);
            s.queue == [] && s.received == s.sent && forall j: nat :: j in s.returned <==> j < |s.sent|
  {
    PipelineHolds(maxTick, workers, ls);
    var s := Run(Launch(workers), ls);
    assert s.workers[0].Exited?;
    forall j: nat | j < |s.sent| ensures j in s.returned {
      if j !in s.returned {
        assert false;
      }
    }
  }

  // ---- shutdown terminates ----

  function HandWork(h: Hand): nat {
    match h
    case Waiting => 1
    case Processing(_) => 2
    case Exited => 0
  }

  function HandsWork(hs: seq<Hand>): nat {
    if hs == [] then 0 else HandsWork(hs[..|hs| - 1]) + HandWork(hs[|hs| - 1])
  }

  lemma {:induction false} HandChanged(hs: seq<Hand>, w: nat, h: Hand)
    requires w < |hs|
    ensures HandsWork(hs[w := h]) == HandsWork(hs) - HandWork(hs[w]) + HandWork(h)
  {
    var n := |hs| - 1;
    if w == n {
      assert hs[w := h][..n] == hs[..n];
    } else {
      HandChanged(hs[..n], w, h);
      assert hs[w := h][..n] == hs[..n][w := h];
    }
  }

  function SchedWork(s: Scheduler): nat {
    match s
    case Idle => 1
    case Ticking(rest) => 3 * |rest| + 2
    case Stopped => 0
  }

  function MainWork(m: Main): nat {
    match m
    case Serving => 3
    case AwaitScheduler => 2
    case AwaitWorkers => 1
    case Complete => 0
  }

  /** Steps still to be taken if the scheduler's ticker does not fire again. */
  function Work(s: State): nat {
    (if s.cancelled then 0 else 1) + SchedWork(s.sched) + 2 * |s.queue| + HandsWork(s.workers) + MainWork(s.main)
  }

  lemma StepDoesWork(maxTick: nat, s: State, l: Label)
    requires PipelineInv(s) && CanDo(maxTick, s, l)
    ensures !l.Tick? ==> Work(Do(s, l)) < Work(s)
    ensures l.Tick? ==> Work(Do(s, l)) <= Work(s) + 3 * maxTick + 1
  {
    match l
    case Receive(w) => HandChanged(s.workers, w, Processing(|s.received|));
    case Return(w) => HandChanged(s.workers, w, Waiting);
    case Exit(w) => HandChanged(s.workers, w, Exited);
    case _ =>
  }

  /** What the ticks of a run add: three steps per id listed, and two for the tick itself. */
  function TickWork(maxTick: nat, ls: seq<Label>): nat {
    if ls == [] then 0
    else TickWork(maxTick, ls[..|ls| - 1]) + if ls[|ls| - 1].Tick? then 3 * maxTick + 2 else 0
  }

  /** A run is no longer than the work at hand plus what its ticks add. */
  lemma {:induction false} RunsAreBounded(maxTick: nat, s: State, ls: seq<Label>)
    requires PipelineInv(s) && IsRun(maxTick, s, ls)
    ensures PipelineInv(Run(s, ls)) && |ls| + Work(Run(s, ls)) <= Work(s) + TickWork(maxTick, ls)
  {
    if ls != [] {
      var n := |ls| - 1;
      forall i | 0 <= i < n ensures CanDo(maxTick, Run(s, ls[..n][..i]), ls[..n][i]) {
        assert ls[..n][..i] == ls[..i];
      }
      RunsAreBounded(maxTick, s, ls[..n]);
      LastStepIsBounded(maxTick, Run(s, ls[..n]), ls[n]);
    }
  }

  lemma LastStepIsBounded(maxTick: nat, s: State, l: Label)
    requires PipelineInv(s) && CanDo(maxTick, s, l)
    ensures PipelineInv(Do(s, l)) && 1 + Work(Do(s, l)) <= Work(s) + if l.Tick? then 3 * maxTick + 2 else 0
  {
    StepKeepsPipeline(maxTick, s, l);
    StepDoesWork(maxTick, s, l);
  }

  /** Once cancelled, something other than the ticker can always move until shutdown is complete. */
  lemma ShutdownNeverStuck(maxTick: nat, s: State)
    requires PipelineInv(s) && s.cancelled && !s.main.Complete?
    ensures exists l :: CanDo(maxTick, s, l) && !l.Tick?
  {
    match s.main
    case Serving => assert CanDo(maxTick, s, Notice);
    case AwaitScheduler =>
      match s.sched {
        case Idle => assert CanDo(maxTick, s, Stop);
        case Ticking(_) => assert CanDo(maxTick, s, Leave);
        case Stopped => assert CanDo(maxTick, s, CloseJobs);
      }
    case AwaitWorkers =>
      if w :| 0 <= w < |s.workers| && s.workers[w].Processing? {
        assert CanDo(maxTick, s, Return(w));
      } else if w :| 0 <= w < |s.workers| && s.workers[w].Waiting? {
        if s.queue == [] {
          assert CanDo(maxTick, s, Exit(w));
        } else {
          assert CanDo(maxTick, s, Receive(w));
        }
      } else {
        assert CanDo(maxTick, s, Finish);
      }
  }

  /**
   Shutdown terminates: after cancellation, a run that nothing but the ticker can
   extend is complete, and every run reaches that point within a number of steps
   fixed by the work at hand and the ticks the scheduler still happens to take.
   */
  lemma ShutdownTerminates(maxTick: nat, workers: nat, ls: seq<Label>, more: seq<Label>)
    requires IsRun(maxTick, Launch(workers), ls) && Run(Launch(workers), ls).cancelled
    requires IsRun(maxTick, Run(Launch(workers), ls), more)
    ensures |more| <= Work(Run(Launch(workers), ls)) + TickWork(maxTick, more)
    ensures var end := Run(Run(Launch(workers), ls), more);
            (forall l :: CanDo(maxTick, end, l) ==> l.Tick?) ==> end.main.Complete?
  {
    PipelineHolds(maxTick, workers, ls);
    RunsAreBounded(maxTick, Run(Launch(workers), ls), more);
    CancelledStays(maxTick, Run(Launch(workers), ls), more);
    var end := Run(Run(Launch(workers), ls), more);
    if !end.main.Complete? {
      ShutdownNeverStuck(maxTick, end);
    }
  }

  lemma {:induction false} CancelledStays(maxTick: nat, s: State, ls: seq<Label>)
    requires s.cancelled
    ensures Run(s, ls).cancelled
  {
    if ls != [] {
      CancelledStays(maxTick, s, ls[..|ls| - 1]);
    }
  }

  // ---- a tick that is not interleaved with the workers ----

  /** The labels of one tick that gets n ids into the channel. */
  function TickLabels(due: seq<int>, n: nat): seq<Label> {
    [Tick(due)] + seq(n, i => Send) + [Leave]
  }

  lemma RunExtend(maxTick: nat, s: State, ls: seq<Label>, l: Label)
    requires IsRun(maxTick, s, ls) && CanDo(maxTick, Run(s, ls), l)
    ensures IsRun(maxTick, s, ls + [l]) && Run(s, ls + [l]) == Do(Run(s, ls), l)
  {
    var more := ls + [l];
    assert more[..|ls|] == ls;
    forall i | 0 <= i < |more| ensures CanDo(maxTick, Run(s, more[..i]), more[i]) {
      if i < |ls| {
        assert more[..i] == ls[..i];
      }
    }
  }

  lemma {:induction false} SendsAreARun(maxTick: nat, s: State, due: seq<int>, n: nat)
    requires s.sched.Idle? && !s.closed && |due| <= maxTick && n <= |due| && |s.queue| + n <= Capacity(s)
    ensures IsRun(maxTick, s, [Tick(due)] + seq(n, i => Send))
    ensures Run(s, [Tick(due)] + seq(n, i => Send)) == MidTick(s, due, n)
  {
    if n == 0 {
      RunExtend(maxTick, s, [], Tick(due));
      assert [] + [Tick(due)] == [Tick(due)] + seq(n, i => Send);
    } else {
      SendsAreARun(maxTick, s, due, n - 1);
      var before := [Tick(due)] + seq(n - 1, i => Send);
      SendOnce(s, due, n - 1);
      RunExtend(maxTick, s, before, Send);
      assert before + [Send] == [Tick(due)] + seq(n, i => Send);
    }
  }

  /** The machine after the first n ids of a tick have gone in. */
  function MidTick(s: State, due: seq<int>, n: nat): State
    requires n <= |due|
  {
    s.(queue := s.queue + due[..n], sent := s.sent + due[..n], sched := Ticking(due[n..]))
  }

  lemma SendOnce(s: State, due: seq<int>, n: nat)
    requires !s.closed && n < |due| && |s.queue| + n < Capacity(s)
    ensures Do(MidTick(s, due, n), Send) == MidTick(s, due, n + 1)
  {
    assert due[n..][0] == due[n] && due[n..][1..] == due[n + 1..];
    assert due[..n + 1] == due[..n] + [due[n]];
    assert s.queue + due[..n] + [due[n]] == s.queue + due[..n + 1];
    assert s.sent + due[..n] + [due[n]] == s.sent + due[..n + 1];
  }

  /** A tick that stops for one of its three reasons is a run of the machine. */
  lemma TickIsARun(maxTick: nat, s: State, due: seq<int>, n: nat)
    requires s.sched.Idle? && !s.closed && |due| <= maxTick && n <= |due| && |s.queue| + n <= Capacity(s)
    requires n == |due| || s.cancelled || |s.queue| + n == Capacity(s)
    ensures IsRun(maxTick, s, TickLabels(due, n))
    ensures Run(s, TickLabels(due, n)) == s.(queue := s.queue + due[..n], sent := s.sent + due[..n])
  {
    SendsAreARun(maxTick, s, due, n);
    RunExtend(maxTick, s, [Tick(due)] + seq(n, i => Send), Leave);
  }
}
