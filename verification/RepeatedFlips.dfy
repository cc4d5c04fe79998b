/**
 The one kind that is not claimed. The worker exempts the on-sale flip from
 watch_alerts because an edge already happens once per transition. FlipLedger says
 exactly when that is true of interleaved polls and SerialPolls when it is true of
 polls in sequence; these are the two ways in which it is not: two polls of one
 event that overlap, and one poll that stops between mailing a flip and storing
 its signal.
 */
module RepeatedFlips {
  import opened Basics
  import opened Ticketmaster
  import opened Evaluator
  import opened AlertStore
  import opened AlertEngine
  import opened ClaimLedger
  import opened FlipLedger

  /** An event without an announced date and its one active watch, last seen not on sale, with a consenting owner. */
  ghost predicate IsRipe(db: Db, e: int, x: int) {
    && e in db.events && db.events[e].publicStart.None? && db.events[e].eventDate.None?
    && (forall w :: IsActiveOn(db, e, w) <==> w == x)
    && x in db.watches && !db.watches[x].lastEvaluation && db.watches[x].pollInterval > 0
    && db.watches[x].userId in db.users && db.users[db.watches[x].userId] == UserRow(true, false)
  }

  /** Ticketmaster's answer: on sale, and no dates at all. */
  function OnSaleWire(): RawEvent {
    RawEvent("event", "onsale", Absent, Absent, Absent, false, false, [])
  }

  function OnlyRow(db: Db, x: int): ActiveWatch
    requires x in db.watches
  {
    ActiveWatch(x, db.watches[x].userId, db.watches[x].lastEvaluation, db.watches[x].createdAt, true, false)
  }

  function PollAt(ev: EventRow, e: int): Poll {
    PollOf(e, ev, OnSaleWire(), 0)
  }

  /** The job is about to mail the flip to the owner of x. */
  predicate IsAboutToMail(l: Local, x: int) {
    l.pc.Deliver? && l.pc.kind == StatusOnsale && l.pc.row.id == x && MayMail(l.pc.row)
  }

  lemma StoringKeepsRipe(db: Db, e: int, x: int, next: Time)
    requires IsRipe(db, e, x)
    ensures IsRipe(StoreCalendar(db, e, OnSaleWire(), next), e, x)
    ensures IsListing(StoreCalendar(db, e, OnSaleWire(), next), e, [OnlyRow(db, x)])
  {
    var after := StoreCalendar(db, e, OnSaleWire(), next);
    assert after.watches == db.watches && after.users == db.users;
    forall w ensures IsActiveOn(after, e, w) <==> w == x {
      assert IsActiveOn(after, e, w) <==> IsActiveOn(db, e, w);
    }
    assert [OnlyRow(db, x)][0].id == x;
  }

  /** A job on such an event, undisturbed until it has listed the watches. */
  lemma ReachesList(job: nat, db: Db, log: seq<Entry>, e: int, x: int) returns (steps: seq<Step>, next: Time)
    requires IsRipe(db, e, x)
    ensures JobRun(job, Local(db, log, Get(e)), steps)
         == Some(Local(StoreCalendar(db, e, OnSaleWire(), next), log, List(PollAt(db.events[e], e))))
  {
    var raw, ev, start := OnSaleWire(), db.events[e], Local(db, log, Get(e));
    var avail := Normalise(raw).availability;
    steps := [];
    JobRunExtend(job, start, steps, start, Step(0, Ok));
    steps := steps + [Step(0, Ok)];
    var fetching := Local(db, log, Fetch(e, ev));
    JobRunExtend(job, start, steps, fetching, Step(0, Wire(raw)));
    steps := steps + [Step(0, Wire(raw))];
    var stored := db;
    if Changed(ev, avail) {
      JobRunExtend(job, start, steps, Local(db, log, Insert(e, ev, raw)), Step(0, Ok));
      steps := steps + [Step(0, Ok)];
      stored := InsertSnapshot(db, e, avail);
    }
    var least := db.watches[x].pollInterval;
    assert IsActiveOn(stored, e, x) && IsMinInterval(stored, e, least) by {
      assert forall w :: IsActiveOn(stored, e, w) <==> IsActiveOn(db, e, w);
    }
    JobRunExtend(job, start, steps, Local(stored, log, Interval(e, ev, raw)), Step(0, Least(least)));
    steps := steps + [Step(0, Least(least))];
    next := 0 + Seconds(least);
    JobRunExtend(job, start, steps, Local(stored, log, Update(e, ev, raw, next)), Step(0, Ok));
    steps := steps + [Step(0, Ok)];
  }

  lemma ReachesDelivery(job: nat, db: Db, log: seq<Entry>, e: int, x: int) returns (steps: seq<Step>, end: Local)
    requires IsRipe(db, e, x)
    ensures JobRun(job, Local(db, log, Get(e)), steps) == Some(end)
    ensures end.log == log && IsRipe(end.db, e, x) && IsAboutToMail(end, x)
  {
    var next;
    steps, next := ReachesList(job, db, log, e, x);
    var ev, row := db.events[e], OnlyRow(db, x);
    var listing := Local(StoreCalendar(db, e, OnSaleWire(), next), log, List(PollAt(ev, e)));
    StoringKeepsRipe(db, e, x, next);
    assert Normalise(OnSaleWire()).availability == "onsale";
    JobRunExtend(job, Local(db, log, Get(e)), steps, listing, Step(0, Rows([row])));
    steps := steps + [Step(0, Rows([row]))];
    end := Advance(job, listing, 0, Rows([row]));
  }

  lemma {:induction false} RunsJoin(s: System, a: seq<Label>, b: seq<Label>)
    requires IsRun(s, a) && IsRun(Run(s, a), b)
    ensures IsRun(s, a + b) && Run(s, a + b) == Run(Run(s, a), b)
    decreases |b|
  {
    if b == [] {
      assert a + b == a;
    } else {
      var n := |b| - 1;
      IsRunPrefix(Run(s, a), b, n);
      RunsJoin(s, a, b[..n]);
      var t := NthStep(Run(s, a), b, n);
      IsRunExtend(s, a + b[..n], b[n]);
      assert a + (b[..n] + [b[n]]) == a + b[..n] + [b[n]];
      assert b == b[..n] + [b[n]] && b[..n + 1] == b;
    }
  }

  /** Only the scheduler and the workers act: nothing fails by a crash and no user does anything. */
  predicate IsQuietRun(ls: seq<Label>) {
    forall l :: l in ls ==> l.Begin? || l.Move?
  }

  /** Starting from the queue, one more job of the event gets as far as the mail. */
  lemma OneMoreReaches(s: System, job: nat, e: int, x: int) returns (ls: seq<Label>, end: Local)
    requires job in s.jobs && s.jobs[job] == Get(e) && IsRipe(s.db, e, x)
    ensures IsRun(s, ls) && Run(s, ls) == With(s, job, end)
    ensures forall l :: l in ls ==> l.Move?
    ensures end.log == s.log && IsRipe(end.db, e, x) && IsAboutToMail(end, x)
  {
    var steps;
    steps, end := ReachesDelivery(job, s.db, s.log, e, x);
    ls := MovesOf(job, steps);
    SoloJobIsARun(s, job, steps, end);
  }

  lemma BothBegin(s: System, e: int)
    requires Fresh(s)
    ensures var both := s.(jobs := map[0 := Get(e), 1 := Get(e)], nextJob := 2);
            IsRun(s, [Begin(e), Begin(e)]) && Run(s, [Begin(e), Begin(e)]) == both
  {
    IsRunExtend(s, [], Begin(e));
    assert [] + [Begin(e)] == [Begin(e)];
    IsRunExtend(s, [Begin(e)], Begin(e));
    assert [Begin(e)] + [Begin(e)] == [Begin(e), Begin(e)];
    assert map[0 := Get(e)][1 := Get(e)] == map[0 := Get(e), 1 := Get(e)];
  }

  /** The scheduler may enqueue an event twice; both jobs then get as far as the mail before either has recorded anything. */
  lemma BothReach(s: System, e: int, x: int) returns (ls: seq<Label>, a: Local, b: Local)
    requires Fresh(s) && IsRipe(s.db, e, x)
    ensures IsRun(s, ls) && IsQuietRun(ls)
    ensures var end := Run(s, ls);
            0 in end.jobs && 1 in end.jobs && end.jobs[0] == a.pc && end.jobs[1] == b.pc && end.log == []
    ensures IsAboutToMail(a, x) && IsAboutToMail(b, x)
  {
    var both := s.(jobs := map[0 := Get(e), 1 := Get(e)], nextJob := 2);
    BothBegin(s, e);
    var one, two;
    one, a := OneMoreReaches(both, 0, e, x);
    RunsJoin(s, [Begin(e), Begin(e)], one);
    two, b := OneMoreReaches(With(both, 0, a), 1, e, x);
    RunsJoin(s, [Begin(e), Begin(e)] + one, two);
    ls := [Begin(e), Begin(e)] + one + two;
  }

  /**
   With two jobs on one event, no failure, no crash and no user action, the one
   transition to on sale is mailed twice to the same watch.
   */
  lemma FlipIsMailedTwice(s: System, e: int, x: int) returns (ls: seq<Label>, first: ActiveWatch, second: ActiveWatch)
    requires Fresh(s) && IsRipe(s.db, e, x)
    ensures IsRun(s, ls) && IsQuietRun(ls) && first.id == x && second.id == x
    ensures Run(s, ls).log == [Sent(0, first, StatusOnsale), Sent(1, second, StatusOnsale)]
  {
    var a, b;
    ls, a, b := BothReach(s, e, x);
    IsRunExtend(s, ls, Move(0, 0, Ok));
    IsRunExtend(s, ls + [Move(0, 0, Ok)], Move(1, 0, Ok));
    first, second := a.pc.row, b.pc.row;
    ls := ls + [Move(0, 0, Ok)] + [Move(1, 0, Ok)];
  }

  // ---- one after another ----

  lemma SequentialJoin(s: System, a: seq<Label>, moves: seq<Label>)
    requires IsSequential(s, a) && forall l :: l in moves ==> l.Move? || l.Crash?
    ensures IsSequential(s, a + moves)
  {
    var ls := a + moves;
    assert forall k :: |a| <= k < |ls| ==> ls[k] in moves;
    forall i | 0 <= i < |ls| && ls[i].Begin? ensures AllDone(Run(s, ls[..i])) {
      assert ls[..i] == a[..i];
    }
  }

  lemma SequentialBegin(s: System, a: seq<Label>, e: int)
    requires IsSequential(s, a) && AllDone(Run(s, a))
    ensures IsSequential(s, a + [Begin(e)])
  {
    var ls := a + [Begin(e)];
    forall i | 0 <= i < |ls| && ls[i].Begin? ensures AllDone(Run(s, ls[..i])) {
      assert ls[..i] == a[..i];
      assert a[..|a|] == a;
    }
  }

  /** All jobs are done, and the event is as ripe as it was. */
  ghost predicate IsIdle(s: System, e: int, x: int) {
    AllDone(s) && IsRipe(s.db, e, x) && JobsNumbered(s)
  }

  /** When all is idle, a job can begin and get as far as the mail, and mail. */
  lemma OneBeginsAndMails(s: System, ls: seq<Label>, e: int, x: int) returns (more: seq<Label>, end: Local)
    requires IsRun(s, ls) && IsSequential(s, ls) && IsIdle(Run(s, ls), e, x)
    ensures IsRun(s, more) && IsSequential(s, more) && (IsQuietRun(ls) ==> IsQuietRun(more))
    ensures IsAboutToMail(end, x) && IsRipe(end.db, e, x)
    ensures IsMailed(Run(s, ls), Run(s, more), end)
  {
    var t := Run(s, ls);
    IsRunExtend(s, ls, Begin(e));
    SequentialBegin(s, ls, e);
    var moves;
    moves, end := OneMoreReaches(Do(t, Begin(e)), t.nextJob, e, x);
    RunsJoin(s, ls + [Begin(e)], moves);
    SequentialJoin(s, ls + [Begin(e)], moves);
    var reached := ls + [Begin(e)] + moves;
    var mail := Move(t.nextJob, 0, Ok);
    IsRunExtend(s, reached, mail);
    SequentialJoin(s, reached, [mail]);
    more := reached + [mail];
    MailedFrom(t, Do(t, Begin(e)), Run(s, reached), Run(s, more), e, end);
  }

  /** From s the next job has begun, mailed the flip, and is about to stamp the watch; the other jobs are as they were. */
  ghost predicate IsMailed(s: System, s': System, end: Local)
    requires end.pc.Deliver?
  {
    && s'.log == s.log + [Sent(s.nextJob, end.pc.row, StatusOnsale)]
    && s'.db == end.db && s'.nextJob == s.nextJob + 1
    && s'.jobs.Keys == s.jobs.Keys + {s.nextJob} && s'.jobs[s.nextJob].Mark?
    && forall j :: j in s.jobs && j != s.nextJob ==> s'.jobs[j] == s.jobs[j]
  }

  lemma MailedFrom(t: System, begun: System, reached: System, mailed: System, e: int, end: Local)
    requires begun == Do(t, Begin(e)) && reached == With(begun, t.nextJob, end) && mailed == Do(reached, Move(t.nextJob, 0, Ok))
    requires end.log == t.log && end.pc.Deliver? && end.pc.kind == StatusOnsale && MayMail(end.pc.row)
    ensures IsMailed(t, mailed, end)
  {
    assert Local(reached.db, reached.log, reached.jobs[t.nextJob]) == end;
  }

  /** The job stops before it stores the signal: the stamp on the watch fails, or the process is killed. */
  function StopAt(j: nat, crash: bool): Label {
    if crash then Crash(j) else Move(j, 0, Error)
  }

  lemma MailsAndStops(s: System, e: int, x: int, crash: bool) returns (ls: seq<Label>, end: Local)
    requires Fresh(s) && IsRipe(s.db, e, x)
    ensures IsRun(s, ls) && IsSequential(s, ls) && (!crash ==> IsQuietRun(ls)) && IsIdle(Run(s, ls), e, x)
    ensures IsAboutToMail(end, x)
    ensures Run(s, ls).log == [Sent(0, end.pc.row, StatusOnsale)] && Run(s, ls).nextJob == 1
  {
    var once;
    once, end := OneBeginsAndMails(s, [], e, x);
    IsRunExtend(s, once, StopAt(0, crash));
    SequentialJoin(s, once, [StopAt(0, crash)]);
    ls := once + [StopAt(0, crash)];
  }

  /**
   With one job at a time, and no user action: the first job mails the flip and its
   next call fails, or it crashes there; the second finds the old signal and mails
   the same transition again.
   */
  lemma FlipIsMailedAgain(s: System, e: int, x: int, crash: bool)
    returns (ls: seq<Label>, first: ActiveWatch, second: ActiveWatch)
    requires Fresh(s) && IsRipe(s.db, e, x)
    ensures IsRun(s, ls) && IsSequential(s, ls) && (!crash ==> IsQuietRun(ls)) && first.id == x && second.id == x
    ensures Run(s, ls).log == [Sent(0, first, StatusOnsale), Sent(1, second, StatusOnsale)]
  {
    var once, a := MailsAndStops(s, e, x, crash);
    var b;
    ls, b := OneBeginsAndMails(s, once, e, x);
    first, second := a.pc.row, b.pc.row;
  }
}
