/**
 One poll as the worker performs it, one store statement or external call at a
 time (ProcessEvent and evaluateWatches in internal/worker/worker.go), and the
 same poll in one piece when nothing fails and nothing interferes.
 */
module AlertEngine {
  import opened Basics
  import opened Ticketmaster
  import opened Evaluator
  import opened AlertStore

  /** What evaluateWatches carries from the poll into the loop over watches. */
  datatype Poll = Poll(eventId: int, obs: Observation, knewPublicStart: bool)

  /** Where a job stands: the call it makes next, with its local variables. */
  datatype Pc =
    | Get(eventId: int)
    | Fetch(eventId: int, ev: EventRow)
    | Insert(eventId: int, ev: EventRow, raw: RawEvent)
    | Interval(eventId: int, ev: EventRow, raw: RawEvent)
    | Update(eventId: int, ev: EventRow, raw: RawEvent, next: Time)
    | List(poll: Poll)
    | Claim(poll: Poll, row: ActiveWatch, kind: Kind, kinds: seq<Kind>, rows: seq<ActiveWatch>, closing: bool)
    | Deliver(poll: Poll, row: ActiveWatch, kind: Kind, kinds: seq<Kind>, rows: seq<ActiveWatch>, closing: bool)
    | Mark(poll: Poll, row: ActiveWatch, kinds: seq<Kind>, rows: seq<ActiveWatch>, closing: bool)
    | Record(poll: Poll, row: ActiveWatch, rows: seq<ActiveWatch>, closing: bool)
    | Close(poll: Poll)
    | Done(ok: bool)

  /** What a call answers: Error for any failure. */
  datatype Reply =
    | Error
    | Ok
    | Wire(raw: RawEvent)
    | Least(interval: int)
    | Rows(rows: seq<ActiveWatch>)

  /** The ghost log: claims won, alerts handed to Notify, alerts withheld, claims lost in a crash, evaluations recorded. */
  datatype Entry =
    | Won(job: nat, w: int, kind: Kind)
    | Sent(job: nat, row: ActiveWatch, kind: Kind)
    | Withheld(job: nat, w: int, kind: Kind)
    | Abandoned(job: nat, w: int, kind: Kind)
    | Evaluated(job: nat, w: int, onsale: bool, flipped: bool)

  datatype Local = Local(db: Db, log: seq<Entry>, pc: Pc)

  predicate NeedsClaim(k: Kind) {
    k != StatusOnsale
  }

  function EqStrPtr(a: Option<string>, b: Option<string>): bool {
    if a.None? || b.None? then a.None? && b.None? else a.value == b.value
  }

  predicate Changed(ev: EventRow, avail: string) {
    !EqStrPtr(ev.lastAvailability, Some(avail))
  }

  function MayMail(r: ActiveWatch): bool {
    r.verified && !r.unsubscribed
  }

  function PriorOf(poll: Poll, r: ActiveWatch): Prior {
    Prior(poll.knewPublicStart, r.lastEvaluation, Some(r.createdAt))
  }

  function VerdictFor(poll: Poll, r: ActiveWatch): Verdict {
    Evaluate(poll.obs, PriorOf(poll, r))
  }

  function ObservationOf(ev: EventRow, s: Snapshot, now: Time): Observation {
    Observation(now, s.availability, s.publicStart, s.publicEnd, s.onsaleTbd,
                if s.presale.Some? then Some(s.presale.value.start) else None, ev.eventDate)
  }

  function PollOf(eventId: int, ev: EventRow, raw: RawEvent, now: Time): Poll {
    Poll(eventId, ObservationOf(ev, Normalise(raw), now), ev.publicStart.Some?)
  }

  function NextKind(poll: Poll, row: ActiveWatch, kinds: seq<Kind>, rows: seq<ActiveWatch>, closing: bool): Pc {
    if kinds == [] then Record(poll, row, rows, closing)
    else if NeedsClaim(kinds[0]) then Claim(poll, row, kinds[0], kinds[1..], rows, closing)
    else Deliver(poll, row, kinds[0], kinds[1..], rows, closing)
  }

  function NextRow(poll: Poll, rows: seq<ActiveWatch>, closing: bool): Pc {
    if rows == [] then (if closing then Close(poll) else Done(true))
    else
      var v := VerdictFor(poll, rows[0]);
      NextKind(poll, rows[0], v.kinds, rows[1..], closing || v.closeWatch)
  }

  /** Which replies the store can give in this state. */
  ghost predicate CanAnswer(l: Local, r: Reply) {
    match l.pc
    case Get(e) => r.Error? || (r.Ok? && e in l.db.events)
    case Fetch(_, _) => r.Error? || r.Wire?
    case Insert(_, _, _) => r.Error? || r.Ok?
    case Interval(e, _, _) => r.Error? || (r.Least? && IsMinInterval(l.db, e, r.interval))
    case Update(_, _, _, _) => r.Error? || r.Ok?
    case List(p) => r.Error? || (r.Rows? && IsListing(l.db, p.eventId, r.rows))
    case Claim(_, row, _, _, _, _) => r.Error? || (r.Ok? && row.id in l.db.watches)
    case Deliver(_, _, _, _, _, _) => r.Ok?
    case Mark(_, _, _, _, _) => r.Error? || r.Ok?
    case Record(_, _, _, _) => r.Error? || r.Ok?
    case Close(_) => r.Error? || r.Ok?
    case Done(_) => false
  }

  /** The job makes its next call at clock reading `at` and gets reply r. */
  function Advance(job: nat, l: Local, at: Time, r: Reply): Local {
    match l.pc
    case Get(e) =>
      if r.Ok? && e in l.db.events then l.(pc := Fetch(e, l.db.events[e])) else l.(pc := Done(false))
    case Fetch(e, ev) =>
      if r.Wire? then
        l.(pc := if Changed(ev, Normalise(r.raw).availability) then Insert(e, ev, r.raw) else Interval(e, ev, r.raw))
      else l.(pc := Done(false))
    case Insert(e, ev, raw) =>
      if r.Ok? then l.(db := InsertSnapshot(l.db, e, Normalise(raw).availability), pc := Interval(e, ev, raw))
      else l.(pc := Done(false))
    case Interval(e, ev, raw) =>
      var interval := if r.Least? && r.interval > 0 then r.interval else DEFAULT_INTERVAL;
      l.(pc := Update(e, ev, raw, at + Seconds(interval)))
    case Update(e, ev, raw, next) =>
      if r.Ok? then
        l.(db := UpdateEventLatest(l.db, e, Normalise(raw), next), pc := List(PollOf(e, ev, raw, at)))
      else l.(pc := Done(false))
    case List(p) =>
      if r.Rows? then l.(pc := NextRow(p, r.rows, false)) else l.(pc := Done(false))
    case Claim(p, row, k, kinds, rows, closing) =>
      if !r.Ok? then l.(pc := Done(false))
      else if (row.id, k) in l.db.claims then l.(pc := NextKind(p, row, kinds, rows, closing))
      else Local(ClaimAlert(l.db, row.id, k), l.log + [Won(job, row.id, k)], Deliver(p, row, k, kinds, rows, closing))
    case Deliver(p, row, k, kinds, rows, closing) =>
      if MayMail(row) then l.(log := l.log + [Sent(job, row, k)], pc := Mark(p, row, kinds, rows, closing))
      else l.(log := l.log + [Withheld(job, row.id, k)], pc := NextKind(p, row, kinds, rows, closing))
    case Mark(p, row, kinds, rows, closing) =>
      if r.Ok? then l.(db := MarkNotified(l.db, row.id), pc := NextKind(p, row, kinds, rows, closing))
      else l.(pc := Done(false))
    case Record(p, row, rows, closing) =>
      var v := VerdictFor(p, row);
      if r.Ok? then
        Local(SetLastEvaluation(l.db, row.id, v.statusOnsale),
              l.log + [Evaluated(job, row.id, v.statusOnsale, StatusOnsale in v.kinds)],
              NextRow(p, rows, closing))
      else l.(pc := Done(false))
    case Close(p) =>
      if r.Ok? then l.(db := CloseWatches(l.db, p.eventId), pc := Done(true)) else l.(pc := Done(false))
    case Done(_) => l
  }

  /** A stretch of one job's execution with nothing else happening in between. */
  datatype Step = Step(at: Time, reply: Reply)

  /** Where the stretch ends, or None if some reply in it could not have been given. */
  ghost function JobRun(job: nat, l: Local, steps: seq<Step>): Option<Local> {
    if steps == [] then Some(l)
    else
      var last := steps[|steps| - 1];
      match JobRun(job, l, steps[..|steps| - 1])
      case None => None
      case Some(before) => if CanAnswer(before, last.reply) then Some(Advance(job, before, last.at, last.reply)) else None
  }

  /** The last call of a stretch. */
  lemma LastCall(job: nat, l: Local, steps: seq<Step>, end: Local) returns (before: Local)
    requires steps != [] && JobRun(job, l, steps) == Some(end)
    ensures var last := steps[|steps| - 1];
            && JobRun(job, l, steps[..|steps| - 1]) == Some(before)
            && CanAnswer(before, last.reply) && end == Advance(job, before, last.at, last.reply)
            && !before.pc.Done?
  {
    before := JobRun(job, l, steps[..|steps| - 1]).value;
  }

  lemma JobRunExtend(job: nat, l: Local, steps: seq<Step>, before: Local, s: Step)
    requires JobRun(job, l, steps) == Some(before) && CanAnswer(before, s.reply)
    ensures JobRun(job, l, steps + [s]) == Some(Advance(job, before, s.at, s.reply))
  {
    assert (steps + [s])[..|steps|] == steps;
  }

  // ---- the poll in one piece ----

  /** One kind of one verdict: claim it if it must be claimed, then mail, withhold or stay quiet. */
  function SettleKind(job: nat, db: Db, log: seq<Entry>, row: ActiveWatch, k: Kind): (Db, seq<Entry>) {
    if NeedsClaim(k) && (row.id, k) in db.claims then (db, log)
    else
      var claimed := if NeedsClaim(k) then ClaimAlert(db, row.id, k) else db;
      var won := if NeedsClaim(k) then log + [Won(job, row.id, k)] else log;
      if MayMail(row) then (MarkNotified(claimed, row.id), won + [Sent(job, row, k)])
      else (claimed, won + [Withheld(job, row.id, k)])
  }

  function SettleKinds(job: nat, db: Db, log: seq<Entry>, row: ActiveWatch, kinds: seq<Kind>): (Db, seq<Entry>)
    decreases |kinds|
  {
    if kinds == [] then (db, log)
    else
      var (db1, log1) := SettleKind(job, db, log, row, kinds[0]);
      SettleKinds(job, db1, log1, row, kinds[1..])
  }

  function RecordRow(job: nat, db: Db, log: seq<Entry>, poll: Poll, row: ActiveWatch): (Db, seq<Entry>) {
    var v := VerdictFor(poll, row);
    (SetLastEvaluation(db, row.id, v.statusOnsale),
     log + [Evaluated(job, row.id, v.statusOnsale, StatusOnsale in v.kinds)])
  }

  function SettleRow(job: nat, db: Db, log: seq<Entry>, poll: Poll, row: ActiveWatch): (Db, seq<Entry>) {
    var (db1, log1) := SettleKinds(job, db, log, row, VerdictFor(poll, row).kinds);
    RecordRow(job, db1, log1, poll, row)
  }

  function SettleRows(job: nat, db: Db, log: seq<Entry>, poll: Poll, rows: seq<ActiveWatch>): (Db, seq<Entry>)
    decreases |rows|
  {
    if rows == [] then (db, log)
    else
      var (db1, log1) := SettleRow(job, db, log, poll, rows[0]);
      SettleRows(job, db1, log1, poll, rows[1..])
  }

  predicate AnyCloses(poll: Poll, rows: seq<ActiveWatch>) {
    exists i :: 0 <= i < |rows| && VerdictFor(poll, rows[i]).closeWatch
  }

  function CloseIf(closing: bool, db: Db, eventId: int): Db {
    if closing then CloseWatches(db, eventId) else db
  }

  /** The tables after the calendar of a wire event has been stored. */
  function StoreCalendar(db: Db, e: int, raw: RawEvent, next: Time): Db
    requires e in db.events
  {
    var s := Normalise(raw);
    UpdateEventLatest(
      if Changed(db.events[e], s.availability) then InsertSnapshot(db, e, s.availability) else db,
      e, s, next)
  }

  /** The inputs of a completed poll that come from outside the tables. */
  datatype Outcome = Outcome(raw: RawEvent, next: Time, now: Time, rows: seq<ActiveWatch>)

  function PollFor(db: Db, e: int, o: Outcome): Poll
    requires e in db.events
  {
    PollOf(e, db.events[e], o.raw, o.now)
  }

  function CompletePoll(job: nat, db: Db, log: seq<Entry>, e: int, o: Outcome): (Db, seq<Entry>)
    requires e in db.events
  {
    var poll := PollFor(db, e, o);
    var (db1, log1) := SettleRows(job, StoreCalendar(db, e, o.raw, o.next), log, poll, o.rows);
    (CloseIf(AnyCloses(poll, o.rows), db1, e), log1)
  }

  ghost predicate IsOutcome(db: Db, e: int, o: Outcome) {
    e in db.events && IsListing(StoreCalendar(db, e, o.raw, o.next), e, o.rows)
  }

  // ---- the steps of an undisturbed job add up to the poll in one piece ----

  /** What remains of the loop over watches, done in one piece from a given point. */
  function Remainder(job: nat, l: Local): (Db, seq<Entry>) {
    match l.pc
    case Claim(p, row, k, kinds, rows, closing) =>
      FinishRow(job, SettleKind(job, l.db, l.log, row, k), p, row, kinds, rows, closing)
    case Deliver(p, row, k, kinds, rows, closing) =>
      FinishRow(job, if MayMail(row) then (MarkNotified(l.db, row.id), l.log + [Sent(job, row, k)])
                     else (l.db, l.log + [Withheld(job, row.id, k)]), p, row, kinds, rows, closing)
    case Mark(p, row, kinds, rows, closing) =>
      FinishRow(job, (MarkNotified(l.db, row.id), l.log), p, row, kinds, rows, closing)
    case Record(p, row, rows, closing) => FinishRow(job, (l.db, l.log), p, row, [], rows, closing)
    case Close(p) => (CloseWatches(l.db, p.eventId), l.log)
    case _ => (l.db, l.log)
  }

  function FinishRow(job: nat, at: (Db, seq<Entry>), p: Poll, row: ActiveWatch, kinds: seq<Kind>,
                     rows: seq<ActiveWatch>, closing: bool): (Db, seq<Entry>)
  {
    var (db1, log1) := SettleKinds(job, at.0, at.1, row, kinds);
    var (db2, log2) := RecordRow(job, db1, log1, p, row);
    FinishRows(job, (db2, log2), p, rows, closing)
  }

  function FinishRows(job: nat, at: (Db, seq<Entry>), p: Poll, rows: seq<ActiveWatch>, closing: bool): (Db, seq<Entry>) {
    var (db1, log1) := SettleRows(job, at.0, at.1, p, rows);
    (CloseIf(closing || AnyCloses(p, rows), db1, p.eventId), log1)
  }

  lemma RemainderOfNextKind(job: nat, db: Db, log: seq<Entry>, p: Poll, row: ActiveWatch, kinds: seq<Kind>,
                            rows: seq<ActiveWatch>, closing: bool)
    ensures Remainder(job, Local(db, log, NextKind(p, row, kinds, rows, closing)))
         == FinishRow(job, (db, log), p, row, kinds, rows, closing)
  {
  }

  lemma RemainderOfNextRow(job: nat, db: Db, log: seq<Entry>, p: Poll, rows: seq<ActiveWatch>, closing: bool)
    ensures Remainder(job, Local(db, log, NextRow(p, rows, closing))) == FinishRows(job, (db, log), p, rows, closing)
  {
    if rows != [] {
      var v := VerdictFor(p, rows[0]);
      RemainderOfNextKind(job, db, log, p, rows[0], v.kinds, rows[1..], closing || v.closeWatch);
      assert AnyCloses(p, rows) <==> v.closeWatch || AnyCloses(p, rows[1..]) by {
        if AnyCloses(p, rows) && !v.closeWatch {
          var i :| 0 <= i < |rows| && VerdictFor(p, rows[i]).closeWatch;
          assert rows[1..][i - 1] == rows[i];
        }
        if AnyCloses(p, rows[1..]) {
          var i :| 0 <= i < |rows[1..]| && VerdictFor(p, rows[1..][i]).closeWatch;
          assert rows[i + 1] == rows[1..][i];
        }
      }
    }
  }

  predicate InLoop(pc: Pc) {
    pc.Claim? || pc.Deliver? || pc.Mark? || pc.Record? || pc.Close?
  }

  /** Inside the loop, Claim is reached only by kinds that need one, and Deliver only once it is won. */
  predicate ClaimBeforeDelivery(l: Local) {
    match l.pc
    case Claim(_, _, k, _, _, _) => k != StatusOnsale
    case Deliver(_, row, k, _, _, _) => k != StatusOnsale ==> (row.id, k) in l.db.claims
    case _ => true
  }

  predicate InLoopOrDone(l: Local) {
    (InLoop(l.pc) || l.pc.Done?) && ClaimBeforeDelivery(l)
  }

  lemma LoopStepStaysInLoop(job: nat, l: Local, at: Time, r: Reply)
    requires InLoop(l.pc) && CanAnswer(l, r) && ClaimBeforeDelivery(l)
    ensures InLoopOrDone(Advance(job, l, at, r))
  {
  }

  /** No step inside the loop changes where the poll will end, unless it ends the poll with an error. */
  lemma LoopStepKeepsRemainder(job: nat, l: Local, at: Time, r: Reply)
    requires InLoop(l.pc) && CanAnswer(l, r) && ClaimBeforeDelivery(l)
    ensures Advance(job, l, at, r).pc == Done(false) || Remainder(job, Advance(job, l, at, r)) == Remainder(job, l)
  {
    var l' := Advance(job, l, at, r);
    match l.pc
    case Claim(p, row, k, kinds, rows, closing) => RemainderOfNextKind(job, l'.db, l'.log, p, row, kinds, rows, closing);
    case Deliver(p, row, k, kinds, rows, closing) => RemainderOfNextKind(job, l'.db, l'.log, p, row, kinds, rows, closing);
    case Mark(p, row, kinds, rows, closing) => RemainderOfNextKind(job, l'.db, l'.log, p, row, kinds, rows, closing);
    case Record(p, row, rows, closing) => RemainderOfNextRow(job, l'.db, l'.log, p, rows, closing);
    case Close(p) =>
  }

  predicate AfterInsert(db: Db, e: int, raw: RawEvent, after: Db)
    requires e in db.events
  {
    var s := Normalise(raw);
    after == if Changed(db.events[e], s.availability) then InsertSnapshot(db, e, s.availability) else db
  }

  ghost predicate AtList(db: Db, e: int, poll: Poll, after: Db)
    requires e in db.events
  {
    exists raw, next, now :: poll == PollOf(e, db.events[e], raw, now) && after == StoreCalendar(db, e, raw, next)
  }

  ghost predicate EndsAs(job: nat, db: Db, log: seq<Entry>, e: int, end: (Db, seq<Entry>)) {
    exists o :: IsOutcome(db, e, o) && end == CompletePoll(job, db, log, e, o)
  }

  /** Where an undisturbed job that started on event e can be, before it reaches the loop over watches. */
  ghost predicate OnCourseToLoop(db: Db, log: seq<Entry>, e: int, l: Local) {
    && l.log == log
    && match l.pc
       case Get(e') => e' == e && l.db == db
       case Fetch(e', ev) => e' == e && e in db.events && ev == db.events[e] && l.db == db
       case Insert(e', ev, raw) =>
         e' == e && e in db.events && ev == db.events[e] && l.db == db && Changed(ev, Normalise(raw).availability)
       case Interval(e', ev, raw) => e' == e && e in db.events && ev == db.events[e] && AfterInsert(db, e, raw, l.db)
       case Update(e', ev, raw, _) => e' == e && e in db.events && ev == db.events[e] && AfterInsert(db, e, raw, l.db)
       case List(poll) => e in db.events && AtList(db, e, poll, l.db)
       case _ => false
  }

  /** ... and inside the loop, or at the end. */
  ghost predicate OnCourse(job: nat, db: Db, log: seq<Entry>, e: int, l: Local) {
    || l.pc == Done(false)
    || OnCourseToLoop(db, log, e, l)
    || (InLoopOrDone(l) && EndsAs(job, db, log, e, Remainder(job, l)))
  }

  lemma StaysOnCourseToLoop(job: nat, db: Db, log: seq<Entry>, e: int, l: Local, at: Time, r: Reply)
    requires OnCourseToLoop(db, log, e, l) && CanAnswer(l, r) && !l.pc.List?
    ensures Advance(job, l, at, r).pc == Done(false) || OnCourseToLoop(db, log, e, Advance(job, l, at, r))
  {
    if l.pc.Update? && r.Ok? {
      var l' := Advance(job, l, at, r);
      assert l'.pc.poll == PollOf(e, db.events[e], l.pc.raw, at) && l'.db == StoreCalendar(db, e, l.pc.raw, l.pc.next);
      assert AtList(db, e, l'.pc.poll, l'.db);
    }
  }

  lemma EntersLoop(job: nat, db: Db, log: seq<Entry>, e: int, l: Local, at: Time, r: Reply)
    requires OnCourseToLoop(db, log, e, l) && CanAnswer(l, r) && l.pc.List? && r.Rows?
    ensures InLoopOrDone(Advance(job, l, at, r))
    ensures EndsAs(job, db, log, e, Remainder(job, Advance(job, l, at, r)))
  {
    var raw, next, now :| l.pc.poll == PollOf(e, db.events[e], raw, now) && l.db == StoreCalendar(db, e, raw, next);
    var o := Outcome(raw, next, now, r.rows);
    assert IsOutcome(db, e, o);
    RemainderOfNextRow(job, l.db, log, l.pc.poll, r.rows, false);
    assert Remainder(job, Advance(job, l, at, r)) == CompletePoll(job, db, log, e, o);
  }

  lemma StaysOnCourse(job: nat, db: Db, log: seq<Entry>, e: int, l: Local, at: Time, r: Reply)
    requires OnCourse(job, db, log, e, l) && CanAnswer(l, r)
    ensures OnCourse(job, db, log, e, Advance(job, l, at, r))
  {
    if OnCourseToLoop(db, log, e, l) {
      if l.pc.List? {
        if r.Rows? {
          EntersLoop(job, db, log, e, l, at, r);
        }
      } else {
        StaysOnCourseToLoop(job, db, log, e, l, at, r);
      }
    } else {
      LoopStepKeepsRemainder(job, l, at, r);
      LoopStepStaysInLoop(job, l, at, r);
    }
  }

  lemma {:induction false} UndisturbedJobStaysOnCourse(job: nat, db: Db, log: seq<Entry>, e: int, steps: seq<Step>)
    requires JobRun(job, Local(db, log, Get(e)), steps).Some?
    ensures OnCourse(job, db, log, e, JobRun(job, Local(db, log, Get(e)), steps).value)
  {
    if steps != [] {
      var n := |steps| - 1;
      var before := JobRun(job, Local(db, log, Get(e)), steps[..n]).value;
      UndisturbedJobStaysOnCourse(job, db, log, e, steps[..n]);
      StaysOnCourse(job, db, log, e, before, steps[n].at, steps[n].reply);
    }
  }

  /**
   A job that runs undisturbed to its end without reporting an error has done
   exactly one poll in one piece, for some reply of Ticketmaster, some clock
   readings and some arrangement of the watches that were active.
   */
  lemma UndisturbedJobCompletesPoll(job: nat, db: Db, log: seq<Entry>, e: int, steps: seq<Step>, end: Local)
    requires JobRun(job, Local(db, log, Get(e)), steps) == Some(end) && end.pc == Done(true)
    ensures EndsAs(job, db, log, e, (end.db, end.log))
  {
    UndisturbedJobStaysOnCourse(job, db, log, e, steps);
  }
}
