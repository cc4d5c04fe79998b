/**
 Runs in which polls happen one after another, each completing or stopping on the
 way, with user actions in between: what the history table, the edge trigger and
 the closing of dead events add up to over a whole run.
 */
module SerialPolls {
  import opened Basics
  import opened Ticketmaster
  import opened Evaluator
  import opened AlertStore
  import opened AlertEngine
  import opened WatchSignal
  import Ledger = ClaimLedger

  datatype World = World(db: Db, log: seq<Entry>)

  /**
   A poll that completes, a poll that stops on the way, through a failed call or a
   crash, and something a user does.
   */
  datatype Block =
    | Polled(job: nat, e: int, o: Outcome)
    | Stopped(job: nat, e: int, steps: seq<Step>, crashed: bool)
    | User(act: Act)

  /** Where a poll that stops has got to by then. */
  ghost function Reached(w: World, b: Block): Option<Local>
    requires b.Stopped?
  {
    JobRun(b.job, Local(w.db, w.log, Get(b.e)), b.steps)
  }

  /** A failed call ends the poll, except that a failed interval query falls back and delivery never fails. */
  predicate EndsOnError(pc: Pc) {
    !pc.Done? && !pc.Interval? && !pc.Deliver?
  }

  /** What a poll that stops leaves in the log. */
  function Lost(job: nat, crashed: bool, pc: Pc): seq<Entry> {
    if crashed then Ledger.LostBy(job, pc) else []
  }

  ghost predicate CanHappen(w: World, b: Block) {
    match b
    case Polled(_, e, o) => IsOutcome(w.db, e, o)
    case Stopped(_, _, _, crashed) =>
      Reached(w, b).Some? && !Reached(w, b).value.pc.Done? && (crashed || EndsOnError(Reached(w, b).value.pc))
    case User(_) => true
  }

  ghost function Happen(w: World, b: Block): World {
    match b
    case Polled(job, e, o) =>
      if e !in w.db.events then w
      else var (db, log) := CompletePoll(job, w.db, w.log, e, o); World(db, log)
    case Stopped(job, _, _, crashed) =>
      if Reached(w, b).None? then w
      else var l := Reached(w, b).value; World(l.db, l.log + Lost(job, crashed, l.pc))
    case User(act) => w.(db := Perform(w.db, act))
  }

  /** The same stretch and its end, as steps of the interleaved system. */
  function StopRun(b: Block, at: Time): seq<Ledger.Label>
    requires b.Stopped?
  {
    Ledger.MovesOf(b.job, b.steps) + [if b.crashed then Ledger.Crash(b.job) else Ledger.Move(b.job, at, Error)]
  }

  /** Undisturbed moves of a job are a stretch of it. */
  lemma {:induction false} MovesAreAStretch(s: Ledger.System, job: nat, steps: seq<Step>)
    requires job in s.jobs && Ledger.IsRun(s, Ledger.MovesOf(job, steps))
    ensures JobRun(job, Local(s.db, s.log, s.jobs[job]), steps).Some?
  {
    if steps != [] {
      var n := |steps| - 1;
      var moves := Ledger.MovesOf(job, steps);
      assert moves[..n] == Ledger.MovesOf(job, steps[..n]);
      Ledger.IsRunPrefix(s, moves, n);
      MovesAreAStretch(s, job, steps[..n]);
      var before := JobRun(job, Local(s.db, s.log, s.jobs[job]), steps[..n]).value;
      Ledger.SoloJobIsARun(s, job, steps[..n], before);
      assert Ledger.CanDo(Ledger.Run(s, moves[..n]), moves[n]);
      assert moves[n] == Ledger.Move(job, steps[n].at, steps[n].reply);
      assert Local(before.db, before.log, before.pc) == before;
    }
  }

  /** The last step of the run, from where the stretch has got to. */
  lemma LastStepStops(t: Ledger.System, b: Block, l: Local, at: Time)
    requires b.Stopped? && b.job in t.jobs && l == Local(t.db, t.log, t.jobs[b.job])
    ensures var stop := if b.crashed then Ledger.Crash(b.job) else Ledger.Move(b.job, at, Error);
            var t' := Ledger.Do(t, stop);
            && (Ledger.CanDo(t, stop) && b.job in t'.jobs && t'.jobs[b.job] == Done(false)
                <==> !l.pc.Done? && (b.crashed || EndsOnError(l.pc)))
            && (!l.pc.Done? && (b.crashed || EndsOnError(l.pc)) ==>
                  t'.db == l.db && t'.log == l.log + Lost(b.job, b.crashed, l.pc))
  {
  }

  /**
   A poll can stop in a block exactly when the interleaved system has a run in which
   its job takes those steps and is then ended by a failed call or a crash, and both
   leave the same tables and log behind.
   */
  lemma StopsAreRuns(s: Ledger.System, b: Block, at: Time)
    requires b.Stopped? && b.job in s.jobs && s.jobs[b.job] == Get(b.e)
    ensures var end := Ledger.Run(s, StopRun(b, at));
            && (CanHappen(World(s.db, s.log), b)
                <==> Ledger.IsRun(s, StopRun(b, at)) && b.job in end.jobs && end.jobs[b.job] == Done(false))
            && (CanHappen(World(s.db, s.log), b) ==> World(end.db, end.log) == Happen(World(s.db, s.log), b))
  {
    var moves, ls := Ledger.MovesOf(b.job, b.steps), StopRun(b, at);
    assert ls[..|moves|] == moves;
    if Ledger.IsRun(s, ls) {
      Ledger.IsRunPrefix(s, ls, |moves|);
      MovesAreAStretch(s, b.job, b.steps);
      assert Ledger.CanDo(Ledger.Run(s, ls[..|moves|]), ls[|moves|]);
    }
    if Reached(World(s.db, s.log), b).Some? {
      var l := Reached(World(s.db, s.log), b).value;
      Ledger.SoloJobIsARun(s, b.job, b.steps, l);
      LastStepStops(Ledger.With(s, b.job, l), b, l, at);
      if CanHappen(World(s.db, s.log), b) {
        Ledger.IsRunExtend(s, moves, ls[|moves|]);
      }
    }
  }

  ghost function RunBlocks(w: World, bs: seq<Block>): World {
    if bs == [] then w else Happen(RunBlocks(w, bs[..|bs| - 1]), bs[|bs| - 1])
  }

  ghost predicate IsSerial(w: World, bs: seq<Block>) {
    forall i :: 0 <= i < |bs| ==> CanHappen(RunBlocks(w, bs[..i]), bs[i])
  }

  lemma IsSerialFront(w: World, bs: seq<Block>)
    requires IsSerial(w, bs) && bs != []
    ensures IsSerial(w, bs[..|bs| - 1]) && CanHappen(RunBlocks(w, bs[..|bs| - 1]), bs[|bs| - 1])
  {
    var front := bs[..|bs| - 1];
    forall i | 0 <= i < |front| ensures CanHappen(RunBlocks(w, front[..i]), front[i]) {
      assert front[..i] == bs[..i];
    }
  }

  // ---- the effect of one poll ----

  predicate SameWatch(a: WatchRow, b: WatchRow) {
    b == a.(notified := b.notified)
  }

  /** Settling alerts touches only claims and the notified stamp. */
  ghost predicate SameButAlerts(a: Db, b: Db) {
    && b == a.(claims := b.claims, watches := b.watches)
    && b.watches.Keys == a.watches.Keys
    && forall w :: w in a.watches ==> SameWatch(a.watches[w], b.watches[w])
  }

  /** A stretch of the log alerts one watch, n times about the on-sale flip, and evaluates none. */
  ghost predicate AlertsOnly(a: seq<Entry>, b: seq<Entry>, x: int, n: nat) {
    && (forall w :: EvalsOf(b, w) == EvalsOf(a, w))
    && (forall w :: w != x ==> AlertsOn(b, w) == AlertsOn(a, w))
    && OnsaleAlerts(AlertsOn(b, x)) == OnsaleAlerts(AlertsOn(a, x)) + n
  }

  lemma EntryAlertsOnly(log: seq<Entry>, x: int, e: Entry)
    requires IsAlertOn(e, x)
    ensures AlertsOnly(log, log + [e], x, if IsOnsaleAlert(e) then 1 else 0)
  {
    LogAppended(log, e);
    OnsaleAlertsAppended(AlertsOn(log, x), e);
  }

  lemma KindAlertsOnly(job: nat, db: Db, log: seq<Entry>, row: ActiveWatch, k: Kind)
    ensures AlertsOnly(log, SettleKind(job, db, log, row, k).1, row.id, if k == StatusOnsale then 1 else 0)
  {
    var last := if MayMail(row) then Sent(job, row, k) else Withheld(job, row.id, k);
    if k == StatusOnsale {
      EntryAlertsOnly(log, row.id, last);
    } else if (row.id, k) !in db.claims {
      EntryAlertsOnly(log, row.id, Won(job, row.id, k));
      EntryAlertsOnly(log + [Won(job, row.id, k)], row.id, last);
    }
  }

  lemma {:induction false} SettleKindsEffect(job: nat, db: Db, log: seq<Entry>, row: ActiveWatch, kinds: seq<Kind>)
    requires DistinctKinds(kinds)
    ensures var (db', log') := SettleKinds(job, db, log, row, kinds);
            SameButAlerts(db, db') && AlertsOnly(log, log', row.id, if StatusOnsale in kinds then 1 else 0)
    decreases |kinds|
  {
    if kinds != [] {
      var (db1, log1) := SettleKind(job, db, log, row, kinds[0]);
      KindAlertsOnly(job, db, log, row, kinds[0]);
      SettleKindsEffect(job, db1, log1, row, kinds[1..]);
      assert StatusOnsale in kinds <==> kinds[0] == StatusOnsale || StatusOnsale in kinds[1..];
    }
  }

  predicate Unlisted(rows: seq<ActiveWatch>, w: int) {
    forall i :: 0 <= i < |rows| ==> rows[i].id != w
  }

  /** A whole loop over watches touches only claims and two columns of the watch rows. */
  ghost predicate SameButWatches(a: Db, b: Db) {
    && b == a.(claims := b.claims, watches := b.watches)
    && b.watches.Keys == a.watches.Keys
    && forall w :: w in a.watches ==>
         b.watches[w] == a.watches[w].(notified := b.watches[w].notified, lastEvaluation := b.watches[w].lastEvaluation)
  }

  /** One watch is left alone: in the tables, in its evaluations and in its alerts. */
  ghost predicate LeftAlone(a: World, b: World, w: int) {
    && (w in a.db.watches && w in b.db.watches ==> SameWatch(a.db.watches[w], b.db.watches[w]))
    && EvalsOf(b.log, w) == EvalsOf(a.log, w) && AlertsOn(b.log, w) == AlertsOn(a.log, w)
  }

  /** One listed watch is evaluated once, keeps the result, and is alerted only if a kind was due. */
  ghost predicate EvaluatedOnce(a: World, b: World, poll: Poll, row: ActiveWatch) {
    && (row.id in a.db.watches && row.id in b.db.watches ==>
          SameWatch(a.db.watches[row.id].(lastEvaluation := VerdictFor(poll, row).statusOnsale), b.db.watches[row.id]))
    && EvalsOf(b.log, row.id) == EvalsOf(a.log, row.id) + [EvalFor(poll, row)]
    && OnsaleAlerts(AlertsOn(b.log, row.id))
       == OnsaleAlerts(AlertsOn(a.log, row.id)) + (if EvalFor(poll, row).flipped then 1 else 0)
    && (VerdictFor(poll, row).kinds == [] ==> AlertsOn(b.log, row.id) == AlertsOn(a.log, row.id))
  }

  function Both(r: (Db, seq<Entry>)): World {
    World(r.0, r.1)
  }

  lemma RecordEffect(job: nat, a: World, b: World, poll: Poll, row: ActiveWatch)
    requires SameButAlerts(a.db, b.db)
    requires AlertsOnly(a.log, b.log, row.id, if StatusOnsale in VerdictFor(poll, row).kinds then 1 else 0)
    requires VerdictFor(poll, row).kinds == [] ==> b.log == a.log
    ensures var c := Both(RecordRow(job, b.db, b.log, poll, row));
            && SameButWatches(a.db, c.db) && EvaluatedOnce(a, c, poll, row)
            && forall w :: w != row.id ==> LeftAlone(a, c, w)
  {
    var v := VerdictFor(poll, row);
    LogAppended(b.log, Evaluated(job, row.id, v.statusOnsale, StatusOnsale in v.kinds));
  }

  lemma SettleRowEffect(job: nat, a: World, poll: Poll, row: ActiveWatch)
    ensures var b := Both(SettleRow(job, a.db, a.log, poll, row));
            && SameButWatches(a.db, b.db) && EvaluatedOnce(a, b, poll, row)
            && forall w :: w != row.id ==> LeftAlone(a, b, w)
  {
    var v := VerdictFor(poll, row);
    VerdictReportsExactlyWhatIsDue(poll.obs, PriorOf(poll, row));
    SettleKindsEffect(job, a.db, a.log, row, v.kinds);
    RecordEffect(job, a, Both(SettleKinds(job, a.db, a.log, row, v.kinds)), poll, row);
  }

  lemma {:induction false} RowsShape(job: nat, a: World, poll: Poll, rows: seq<ActiveWatch>)
    ensures SameButWatches(a.db, SettleRows(job, a.db, a.log, poll, rows).0)
    decreases |rows|
  {
    if rows != [] {
      SettleRowEffect(job, a, poll, rows[0]);
      RowsShape(job, Both(SettleRow(job, a.db, a.log, poll, rows[0])), poll, rows[1..]);
    }
  }

  lemma LeftAloneTwice(a: World, b: World, c: World, w: int)
    requires SameButWatches(a.db, b.db) && LeftAlone(a, b, w) && LeftAlone(b, c, w)
    ensures LeftAlone(a, c, w)
  {
  }

  lemma {:induction false} UnlistedLeftAlone(job: nat, a: World, poll: Poll, rows: seq<ActiveWatch>, w: int)
    requires Unlisted(rows, w)
    ensures LeftAlone(a, Both(SettleRows(job, a.db, a.log, poll, rows)), w)
    decreases |rows|
  {
    if rows != [] {
      var b := Both(SettleRow(job, a.db, a.log, poll, rows[0]));
      SettleRowEffect(job, a, poll, rows[0]);
      UnlistedLeftAlone(job, b, poll, rows[1..], w);
      LeftAloneTwice(a, b, Both(SettleRows(job, b.db, b.log, poll, rows[1..])), w);
    }
  }

  lemma LeftAloneThenEvaluated(a: World, b: World, c: World, poll: Poll, row: ActiveWatch)
    requires SameButWatches(a.db, b.db) && LeftAlone(a, b, row.id) && EvaluatedOnce(b, c, poll, row)
    ensures EvaluatedOnce(a, c, poll, row)
  {
  }

  lemma {:induction false} ListedEvaluatedOnce(job: nat, a: World, poll: Poll, rows: seq<ActiveWatch>, i: nat)
    requires DistinctRows(rows) && i < |rows|
    ensures EvaluatedOnce(a, Both(SettleRows(job, a.db, a.log, poll, rows)), poll, rows[i])
    decreases |rows|
  {
    var b := Both(SettleRow(job, a.db, a.log, poll, rows[0]));
    var c := Both(SettleRows(job, b.db, b.log, poll, rows[1..]));
    SettleRowEffect(job, a, poll, rows[0]);
    if i == 0 {
      UnlistedLeftAlone(job, b, poll, rows[1..], rows[0].id);
    } else {
      assert rows[1..][i - 1] == rows[i];
      ListedEvaluatedOnce(job, b, poll, rows[1..], i - 1);
      LeftAloneThenEvaluated(a, b, c, poll, rows[i]);
    }
  }

  // ---- history: the snapshot table loses no transition ----

  function RowsFor(snapshots: seq<(int, string)>, e: int): seq<Option<string>> {
    if snapshots == [] then []
    else
      var last := snapshots[|snapshots| - 1];
      if last.0 == e then RowsFor(snapshots[..|snapshots| - 1], e) + [Some(last.1)]
      else RowsFor(snapshots[..|snapshots| - 1], e)
  }

  /** The poll a job carries once it has stored what it fetched. */
  function PollIn(pc: Pc): Option<Poll> {
    match pc
    case List(p) => Some(p)
    case Claim(p, _, _, _, _, _) => Some(p)
    case Deliver(p, _, _, _, _, _) => Some(p)
    case Mark(p, _, _, _, _) => Some(p)
    case Record(p, _, _, _) => Some(p)
    case Close(p) => Some(p)
    case _ => None
  }

  /** The availability a block stored for the event: completed polls store one, stopped ones if they got that far. */
  ghost function StoredBy(w: World, b: Block, e: int): seq<Option<string>> {
    if b.Polled? && b.e == e then [Some(Normalise(b.o.raw).availability)]
    else if b.Stopped? && b.e == e && Reached(w, b).Some? && PollIn(Reached(w, b).value.pc).Some? then
      [Some(PollIn(Reached(w, b).value.pc).value.obs.availability)]
    else []
  }

  /** What the polls of an event stored, one after another. */
  ghost function Observed(w: World, bs: seq<Block>, e: int): seq<Option<string>> {
    if bs == [] then []
    else
      var n := |bs| - 1;
      Observed(w, bs[..n], e) + StoredBy(RunBlocks(w, bs[..n]), bs[n], e)
  }

  /** A sequence with each run of equal neighbours reduced to one. */
  function Compress<T(==)>(s: seq<T>): seq<T> {
    if |s| <= 1 then s
    else if s[|s| - 1] == s[|s| - 2] then Compress(s[..|s| - 1])
    else Compress(s[..|s| - 1]) + [s[|s| - 1]]
  }

  lemma {:induction false} CompressKeepsEnds<T>(s: seq<T>)
    requires s != []
    ensures Compress(s) != [] && Compress(s)[0] == s[0] && Compress(s)[|Compress(s)| - 1] == s[|s| - 1]
  {
    if |s| > 1 {
      CompressKeepsEnds(s[..|s| - 1]);
    }
  }

  /** The compressed form has no equal neighbours, and its neighbours are exactly the changes of the original. */
  lemma {:induction false} CompressKeepsTransitions<T>(s: seq<T>)
    ensures forall i :: 0 <= i < |Compress(s)| - 1 ==> Compress(s)[i] != Compress(s)[i + 1]
    ensures forall x, y :: NeighboursIn(Compress(s), x, y) <==> x != y && NeighboursIn(s, x, y)
  {
    if |s| > 1 {
      var n := |s| - 1;
      var front := s[..n];
      CompressKeepsEnds(front);
      CompressKeepsTransitions(front);
      NeighboursAppended(front, s[n]);
      assert s == front + [s[n]];
      if s[n] != s[n - 1] {
        NeighboursAppended(Compress(front), s[n]);
      }
    }
  }

  predicate NeighboursIn<T(==)>(s: seq<T>, x: T, y: T) {
    exists i :: 0 <= i < |s| - 1 && s[i] == x && s[i + 1] == y
  }

  lemma NeighboursAppended<T>(s: seq<T>, z: T)
    requires s != []
    ensures forall x, y :: NeighboursIn(s + [z], x, y) <==> NeighboursIn(s, x, y) || (x == s[|s| - 1] && y == z)
  {
    forall x, y
      ensures NeighboursIn(s + [z], x, y) <==> NeighboursIn(s, x, y) || (x == s[|s| - 1] && y == z)
    {
      var t := s + [z];
      if NeighboursIn(s, x, y) {
        var i :| 0 <= i < |s| - 1 && s[i] == x && s[i + 1] == y;
        assert t[i] == x && t[i + 1] == y;
      }
      if x == s[|s| - 1] && y == z {
        assert t[|s| - 1] == x && t[|s| - 1 + 1] == y;
      }
      if NeighboursIn(t, x, y) {
        var i :| 0 <= i < |t| - 1 && t[i] == x && t[i + 1] == y;
        if i < |s| - 1 {
          assert s[i] == x && s[i + 1] == y;
        }
      }
    }
  }

  /** The history of an event as a poll leaves it: one row more exactly when the availability changed. */
  function Recorded<T(==)>(rows: seq<T>, last: T, next: T): seq<T> {
    if next == last then rows else rows + [next]
  }

  lemma PollHistory(job: nat, w: World, e: int, o: Outcome, f: int)
    requires IsOutcome(w.db, e, o) && f in w.db.events
    ensures var avail := Some(Normalise(o.raw).availability);
            var after := Happen(w, Polled(job, e, o)).db;
            && f in after.events
            && after.events[f].lastAvailability == (if e == f then avail else w.db.events[f].lastAvailability)
            && RowsFor(after.snapshots, f)
               == (if e == f then Recorded(RowsFor(w.db.snapshots, f), w.db.events[f].lastAvailability, avail)
                   else RowsFor(w.db.snapshots, f))
  {
    var poll := PollFor(w.db, e, o);
    var stored := StoreCalendar(w.db, e, o.raw, o.next);
    RowsShape(job, World(stored, w.log), poll, o.rows);
    var s := w.db.snapshots;
    assert (s + [(e, Normalise(o.raw).availability)])[..|s|] == s;
  }

  /**
   Watch creation stores what it fetched. When the event is already there, which
   creation rules out for the id it was asked for, this replaces the stored
   availability without a history row.
   */
  predicate Overwrites(db: Db, b: Block, e: int) {
    && b.User? && b.act.ActUpsertEvent? && e in db.events && db.events[e].tmId == b.act.raw.tmId
    && db.events[e].lastAvailability != Some(Normalise(b.act.raw).availability)
  }

  lemma PollKeepsConsistent(job: nat, w: World, e: int, o: Outcome)
    requires IsOutcome(w.db, e, o) && Consistent(w.db)
    ensures Consistent(Happen(w, Polled(job, e, o)).db)
  {
    var poll := PollFor(w.db, e, o);
    var stored := StoreCalendar(w.db, e, o.raw, o.next);
    RowsShape(job, World(stored, w.log), poll, o.rows);
    RowsClaimListed(job, World(stored, w.log), poll, o.rows);
  }

  /** Only listed watches are claimed. */
  lemma {:induction false} RowsClaimListed(job: nat, a: World, poll: Poll, rows: seq<ActiveWatch>)
    ensures forall c :: c in SettleRows(job, a.db, a.log, poll, rows).0.claims ==> c in a.db.claims || !Unlisted(rows, c.0)
    decreases |rows|
  {
    if rows != [] {
      var b := Both(SettleRow(job, a.db, a.log, poll, rows[0]));
      KindsClaimOwn(job, a.db, a.log, rows[0], VerdictFor(poll, rows[0]).kinds);
      RowsClaimListed(job, b, poll, rows[1..]);
      assert forall x :: Unlisted(rows, x) ==> x != rows[0].id && Unlisted(rows[1..], x);
    }
  }

  lemma {:induction false} KindsClaimOwn(job: nat, db: Db, log: seq<Entry>, row: ActiveWatch, kinds: seq<Kind>)
    ensures forall c :: c in SettleKinds(job, db, log, row, kinds).0.claims ==> c in db.claims || c.0 == row.id
    ensures db.claims <= SettleKinds(job, db, log, row, kinds).0.claims
    decreases |kinds|
  {
    if kinds != [] {
      var (db1, log1) := SettleKind(job, db, log, row, kinds[0]);
      KindsClaimOwn(job, db1, log1, row, kinds[1..]);
    }
  }

  lemma {:induction false} RunKeepsConsistent(w: World, bs: seq<Block>)
    requires IsSerial(w, bs) && Consistent(w.db)
    ensures Consistent(RunBlocks(w, bs).db)
  {
    if bs != [] {
      IsSerialFront(w, bs);
      var front, b := bs[..|bs| - 1], bs[|bs| - 1];
      RunKeepsConsistent(w, front);
      match b
      case Polled(job, e, o) => PollKeepsConsistent(job, RunBlocks(w, front), e, o);
      case Stopped(job, e, steps, _) => StretchIsMidPoll(job, RunBlocks(w, front), e, steps);
      case User(act) => PerformKeepsConsistent(RunBlocks(w, front).db, act);
    }
  }

  // ---- a poll on its way ----

  ghost predicate NoneActivated(db0: Db, db: Db) {
    && db.watches.Keys == db0.watches.Keys
    && forall x :: x in db.watches && db.watches[x].status == Active ==>
         db0.watches[x].status == Active && db0.watches[x].eventId == db.watches[x].eventId
  }

  /** The history rows once this availability has been compared with the stored one. */
  function Inserted(db0: Db, e: int, avail: string): seq<(int, string)>
    requires e in db0.events
  {
    if Changed(db0.events[e], avail) then db0.snapshots + [(e, avail)] else db0.snapshots
  }

  /** How far the history of a poll on its way has got. */
  ghost predicate HistoryMid(db0: Db, e: int, l: Local) {
    match l.pc
    case Get(f) => f == e && l.db.events == db0.events && l.db.snapshots == db0.snapshots
    case Fetch(f, ev) =>
      f == e && e in db0.events && ev == db0.events[e] && l.db.events == db0.events && l.db.snapshots == db0.snapshots
    case Insert(f, ev, raw) =>
      && f == e && e in db0.events && ev == db0.events[e] && l.db.events == db0.events && l.db.snapshots == db0.snapshots
      && Changed(ev, Normalise(raw).availability)
    case Interval(f, ev, raw) => f == e && IsInserted(db0, e, ev, raw, l.db)
    case Update(f, ev, raw, _) => f == e && IsInserted(db0, e, ev, raw, l.db)
    case Done(_) => true
    case _ => PollIn(l.pc).Some? && PollIn(l.pc).value.eventId == e && IsStored(db0, e, PollIn(l.pc).value.obs.availability, l.db)
  }

  ghost predicate IsInserted(db0: Db, e: int, ev: EventRow, raw: RawEvent, db: Db) {
    && e in db0.events && ev == db0.events[e] && db.events == db0.events
    && db.snapshots == Inserted(db0, e, Normalise(raw).availability)
  }

  ghost predicate IsStored(db0: Db, e: int, avail: string, db: Db) {
    && e in db0.events && db.events.Keys == db0.events.Keys && db.snapshots == Inserted(db0, e, avail)
    && forall f :: f in db.events ==>
         db.events[f].lastAvailability == if f == e then Some(avail) else db0.events[f].lastAvailability
  }

  /** In the loop over watches neither events nor snapshots change, and the poll stays the same. */
  lemma LoopLeavesEvents(job: nat, l: Local, at: Time, r: Reply)
    requires PollIn(l.pc).Some? && CanAnswer(l, r)
    ensures var l' := Advance(job, l, at, r);
            && l'.db.events == l.db.events && l'.db.snapshots == l.db.snapshots
            && (l'.pc.Done? || PollIn(l'.pc) == PollIn(l.pc))
  {
  }

  lemma MoveKeepsHistory(job: nat, db0: Db, e: int, l: Local, at: Time, r: Reply)
    requires HistoryMid(db0, e, l) && CanAnswer(l, r)
    ensures HistoryMid(db0, e, Advance(job, l, at, r))
  {
    if PollIn(l.pc).Some? {
      LoopLeavesEvents(job, l, at, r);
    } else if l.pc.Update? {
    } else {
    }
  }

  ghost predicate IsMidPoll(db0: Db, e: int, l: Local) {
    && Consistent(l.db) && l.db.nextWatchId == db0.nextWatchId && l.db.events.Keys == db0.events.Keys
    && NoneActivated(db0, l.db) && HistoryMid(db0, e, l)
  }

  lemma {:induction false} StretchIsMidPoll(job: nat, w: World, e: int, steps: seq<Step>)
    requires Consistent(w.db) && JobRun(job, Local(w.db, w.log, Get(e)), steps).Some?
    ensures IsMidPoll(w.db, e, JobRun(job, Local(w.db, w.log, Get(e)), steps).value)
  {
    if steps != [] {
      var n := |steps| - 1;
      var start := Local(w.db, w.log, Get(e));
      var l := LastCall(job, start, steps, JobRun(job, start, steps).value);
      StretchIsMidPoll(job, w, e, steps[..n]);
      MoveStaysMidPoll(job, w.db, e, l, steps[n].at, steps[n].reply);
    }
  }

  lemma MoveStaysMidPoll(job: nat, db0: Db, e: int, l: Local, at: Time, r: Reply)
    requires IsMidPoll(db0, e, l) && CanAnswer(l, r)
    ensures IsMidPoll(db0, e, Advance(job, l, at, r))
  {
    Ledger.MoveKeepsTables(job, l, at, r);
    MoveActivatesNone(job, db0, l, at, r);
    MoveKeepsHistory(job, db0, e, l, at, r);
  }

  lemma MoveActivatesNone(job: nat, db0: Db, l: Local, at: Time, r: Reply)
    requires NoneActivated(db0, l.db) && CanAnswer(l, r)
    ensures NoneActivated(db0, Advance(job, l, at, r).db)
  {
  }

  // ---- complete histories ----

  /** The rows added to `prior`, after the seed, are the compressed form of what was seen, which ended with `last`. */
  ghost predicate RecordsAll<T>(prior: seq<T>, rows: seq<T>, last: T, seen: seq<T>) {
    seen != [] && seen[|seen| - 1] == last && prior <= rows && [seen[0]] + rows[|prior|..] == Compress(seen)
  }

  lemma RecordsNext<T>(prior: seq<T>, rows: seq<T>, last: T, seen: seq<T>, next: T)
    requires RecordsAll(prior, rows, last, seen)
    ensures RecordsAll(prior, Recorded(rows, last, next), next, seen + [next])
  {
    assert (seen + [next])[..|seen|] == seen;
    var added := rows[|prior|..];
    assert (rows + [next])[|prior|..] == added + [next];
    assert [seen[0]] + (added + [next]) == ([seen[0]] + added) + [next];
  }

  /** From one moment to a later one, the history of an event accounts for everything seen of it. */
  ghost predicate Accounted(before: Db, after: Db, e: int, seen: seq<Option<string>>) {
    && e in before.events && e in after.events
    && RecordsAll(RowsFor(before.snapshots, e), RowsFor(after.snapshots, e), after.events[e].lastAvailability,
                  [before.events[e].lastAvailability] + seen)
  }

  ghost predicate HistoryComplete(w: World, bs: seq<Block>, e: int) {
    Accounted(w.db, RunBlocks(w, bs).db, e, Observed(w, bs, e))
  }

  lemma PollAccounts(before: Db, mid: World, seen: seq<Option<string>>, job: nat, f: int, o: Outcome, e: int)
    requires Accounted(before, mid.db, e, seen) && IsOutcome(mid.db, f, o)
    ensures Accounted(before, Happen(mid, Polled(job, f, o)).db, e, seen + StoredBy(mid, Polled(job, f, o), e))
  {
    PollHistory(job, mid, f, o, e);
    if f == e {
      StoreAccounts(before, mid.db, Happen(mid, Polled(job, f, o)).db, seen, e, Some(Normalise(o.raw).availability));
    } else {
      assert seen + [] == seen;
    }
  }

  /** Storing an availability together with its row, if it needs one, keeps the account. */
  lemma StoreAccounts(before: Db, mid: Db, after: Db, seen: seq<Option<string>>, e: int, avail: Option<string>)
    requires Accounted(before, mid, e, seen) && e in after.events && after.events[e].lastAvailability == avail
    requires RowsFor(after.snapshots, e) == Recorded(RowsFor(mid.snapshots, e), mid.events[e].lastAvailability, avail)
    ensures Accounted(before, after, e, seen + [avail])
  {
    var seed := before.events[e].lastAvailability;
    RecordsNext(RowsFor(before.snapshots, e), RowsFor(mid.snapshots, e), mid.events[e].lastAvailability, [seed] + seen, avail);
    assert [seed] + (seen + [avail]) == [seed] + seen + [avail];
  }

  /** The poll stopped between writing a history row and storing what the row says. */
  predicate IsBetween(pc: Pc) {
    (pc.Interval? || pc.Update?) && Changed(pc.ev, Normalise(pc.raw).availability)
  }

  /** What breaks a history: an overwritten availability, or a poll that stops after its row and before its update. */
  ghost predicate Breaks(w: World, b: Block, e: int) {
    || Overwrites(w.db, b, e)
    || (b.Stopped? && b.e == e && Reached(w, b).Some? && IsBetween(Reached(w, b).value.pc))
  }

  lemma InsertedRows(db0: Db, e: int, avail: string, f: int)
    requires e in db0.events
    ensures RowsFor(Inserted(db0, e, avail), f)
         == if e == f then Recorded(RowsFor(db0.snapshots, f), db0.events[e].lastAvailability, Some(avail))
            else RowsFor(db0.snapshots, f)
  {
    var s := db0.snapshots;
    assert (s + [(e, avail)])[..|s|] == s;
  }

  /** What a stopped poll leaves of an event's history. */
  lemma StoppedHistory(w: World, b: Block, e: int)
    requires b.Stopped? && Consistent(w.db) && CanHappen(w, b) && e in w.db.events
    ensures var after, pc := Happen(w, b).db, Reached(w, b).value.pc;
            && e in after.events
            && (b.e == e && PollIn(pc).Some? ==>
                  var avail := Some(PollIn(pc).value.obs.availability);
                  && after.events[e].lastAvailability == avail
                  && RowsFor(after.snapshots, e) == Recorded(RowsFor(w.db.snapshots, e), w.db.events[e].lastAvailability, avail))
            && (b.e != e || PollIn(pc).None? ==> after.events[e].lastAvailability == w.db.events[e].lastAvailability)
            && (b.e == e && PollIn(pc).None? && IsBetween(pc) ==>
                  RowsFor(after.snapshots, e) == RowsFor(w.db.snapshots, e) + [Some(Normalise(pc.raw).availability)])
            && (b.e != e || (PollIn(pc).None? && !IsBetween(pc)) ==> RowsFor(after.snapshots, e) == RowsFor(w.db.snapshots, e))
  {
    StretchIsMidPoll(b.job, w, b.e, b.steps);
    var pc := Reached(w, b).value.pc;
    if PollIn(pc).Some? {
      InsertedRows(w.db, b.e, PollIn(pc).value.obs.availability, e);
    } else if pc.Interval? || pc.Update? {
      InsertedRows(w.db, b.e, Normalise(pc.raw).availability, e);
    }
  }

  /** A row without an update puts the history out of step with what was stored. */
  lemma ExtraRow(before: Db, mid: Db, after: Db, e: int, seen: seq<Option<string>>, extra: Option<string>)
    requires Accounted(before, mid, e, seen) && e in after.events
    requires RowsFor(after.snapshots, e) == RowsFor(mid.snapshots, e) + [extra]
    ensures !Accounted(before, after, e, seen)
  {
    var prior, rows := RowsFor(before.snapshots, e), RowsFor(mid.snapshots, e);
    assert |(rows + [extra])[|prior|..]| == |rows[|prior|..]| + 1;
  }

  lemma StoppedAccounts(before: Db, mid: World, seen: seq<Option<string>>, b: Block, e: int)
    requires b.Stopped? && Consistent(mid.db) && CanHappen(mid, b) && Accounted(before, mid.db, e, seen)
    ensures Accounted(before, Happen(mid, b).db, e, seen + StoredBy(mid, b, e)) <==> !Breaks(mid, b, e)
  {
    StoppedHistory(mid, b, e);
    var pc := Reached(mid, b).value.pc;
    if b.e == e && PollIn(pc).Some? {
      StoreAccounts(before, mid.db, Happen(mid, b).db, seen, e, Some(PollIn(pc).value.obs.availability));
    } else {
      assert seen + [] == seen;
      if b.e == e && IsBetween(pc) {
        ExtraRow(before, mid.db, Happen(mid, b).db, e, seen, Some(Normalise(pc.raw).availability));
      }
    }
  }

  lemma UserAccounts(before: Db, mid: World, seen: seq<Option<string>>, act: Act, e: int)
    requires Consistent(mid.db) && Accounted(before, mid.db, e, seen)
    ensures Accounted(before, Happen(mid, User(act)).db, e, seen) <==> !Overwrites(mid.db, User(act), e)
  {
  }

  /** The history stays complete through a block if and only if the block does not break it. */
  lemma BlockKeepsHistoryExactly(w: World, bs: seq<Block>, e: int)
    requires bs != []
    requires var front := bs[..|bs| - 1];
             && HistoryComplete(w, front, e) && Consistent(RunBlocks(w, front).db)
             && CanHappen(RunBlocks(w, front), bs[|bs| - 1])
    ensures HistoryComplete(w, bs, e) <==> !Breaks(RunBlocks(w, bs[..|bs| - 1]), bs[|bs| - 1], e)
  {
    var front, b := bs[..|bs| - 1], bs[|bs| - 1];
    var mid, seen := RunBlocks(w, front), Observed(w, front, e);
    match b
    case User(act) =>
      UserAccounts(w.db, mid, seen, act, e);
      assert seen + [] == seen;
    case Stopped(_, _, _, _) => StoppedAccounts(w.db, mid, seen, b, e);
    case Polled(job, f, o) => PollAccounts(w.db, mid, seen, job, f, o, e);
  }

  ghost predicate IsIntactAt(w: World, bs: seq<Block>, i: nat, e: int)
    requires i < |bs|
  {
    !Breaks(RunBlocks(w, bs[..i]), bs[i], e)
  }

  ghost predicate NeverBroken(w: World, bs: seq<Block>, e: int) {
    forall i :: 0 <= i < |bs| ==> IsIntactAt(w, bs, i, e)
  }

  lemma NeverBrokenFront(w: World, bs: seq<Block>, e: int)
    requires bs != []
    ensures NeverBroken(w, bs, e) <==> NeverBroken(w, bs[..|bs| - 1], e) && IsIntactAt(w, bs, |bs| - 1, e)
  {
    var front := bs[..|bs| - 1];
    forall i | 0 <= i < |front| ensures IsIntactAt(w, front, i, e) == IsIntactAt(w, bs, i, e) {
      assert bs[..|bs| - 1][..i] == bs[..i];
    }
  }

  ghost predicate CompleteAt(w: World, bs: seq<Block>, n: nat, e: int)
    requires n <= |bs|
  {
    HistoryComplete(w, bs[..n], e)
  }

  ghost predicate AlwaysComplete(w: World, bs: seq<Block>, e: int) {
    forall n :: 0 <= n <= |bs| ==> CompleteAt(w, bs, n, e)
  }

  lemma AlwaysCompleteFront(w: World, bs: seq<Block>, e: int)
    requires bs != []
    ensures AlwaysComplete(w, bs, e) <==> AlwaysComplete(w, bs[..|bs| - 1], e) && CompleteAt(w, bs, |bs|, e)
  {
    var front := bs[..|bs| - 1];
    if AlwaysComplete(w, bs, e) {
      forall n | 0 <= n <= |front| ensures CompleteAt(w, front, n, e) {
        CompleteAtFront(w, bs, n, e);
      }
    }
    if AlwaysComplete(w, front, e) && CompleteAt(w, bs, |bs|, e) {
      forall n | 0 <= n <= |bs| ensures CompleteAt(w, bs, n, e) {
        if n < |bs| {
          assert CompleteAt(w, front, n, e);
          CompleteAtFront(w, bs, n, e);
        }
      }
    }
  }

  lemma CompleteAtFront(w: World, bs: seq<Block>, n: nat, e: int)
    requires n < |bs|
    ensures CompleteAt(w, bs[..|bs| - 1], n, e) == CompleteAt(w, bs, n, e)
  {
    assert bs[..|bs| - 1][..n] == bs[..n];
  }

  /**
   Over any serial run, polls that stop on the way included: at every moment the
   availability an event started with, followed by the history rows added for it,
   is the sequence of availabilities stored, with repetitions removed and nothing
   else lost, if and only if nothing is overwritten and no poll stops between its
   row and its update.
   */
  lemma {:induction false} HistoryCompleteExactlyWhen(w: World, bs: seq<Block>, e: int)
    requires IsSerial(w, bs) && Consistent(w.db) && e in w.db.events
    ensures AlwaysComplete(w, bs, e) <==> NeverBroken(w, bs, e)
  {
    if bs == [] {
      assert [w.db.events[e].lastAvailability] + Observed(w, [], e) == [w.db.events[e].lastAvailability];
    } else {
      var front := bs[..|bs| - 1];
      IsSerialFront(w, bs);
      RunKeepsConsistent(w, front);
      HistoryCompleteExactlyWhen(w, front, e);
      NeverBrokenFront(w, bs, e);
      AlwaysCompleteFront(w, bs, e);
      if AlwaysComplete(w, front, e) {
        LastBlockExactly(w, bs, e);
      }
    }
  }

  lemma LastBlockExactly(w: World, bs: seq<Block>, e: int)
    requires bs != [] && AlwaysComplete(w, bs[..|bs| - 1], e) && Consistent(RunBlocks(w, bs[..|bs| - 1]).db)
    requires CanHappen(RunBlocks(w, bs[..|bs| - 1]), bs[|bs| - 1])
    ensures CompleteAt(w, bs, |bs|, e) <==> IsIntactAt(w, bs, |bs| - 1, e)
  {
    var front := bs[..|bs| - 1];
    assert CompleteAt(w, front, |front|, e);
    assert front[..|front|] == front && bs[..|bs|] == bs;
    BlockKeepsHistoryExactly(w, bs, e);
  }

  /** What was seen, with repetitions removed, is exactly what the table holds. */
  lemma HistoryLosesNothing(w: World, bs: seq<Block>, e: int)
    requires IsSerial(w, bs) && Consistent(w.db) && e in w.db.events && NeverBroken(w, bs, e)
    ensures HistoryComplete(w, bs, e)
  {
    HistoryCompleteExactlyWhen(w, bs, e);
    assert CompleteAt(w, bs, |bs|, e);
    assert bs[..|bs|] == bs;
  }

  /** The rows added since an earlier moment. */
  function Added<T>(prior: seq<T>, rows: seq<T>): seq<T> {
    if |prior| <= |rows| then rows[|prior|..] else []
  }

  /** What the history page shows of such an event: no availability twice in a row, and exactly the changes stored. */
  lemma HistoryShowsTheTransitions(w: World, bs: seq<Block>, e: int)
    requires IsSerial(w, bs) && Consistent(w.db) && e in w.db.events && NeverBroken(w, bs, e)
    ensures var first := [w.db.events[e].lastAvailability];
            var shown := first + Added(RowsFor(w.db.snapshots, e), RowsFor(RunBlocks(w, bs).db.snapshots, e));
            && (forall i :: 0 <= i < |shown| - 1 ==> shown[i] != shown[i + 1])
            && forall x, y :: NeighboursIn(shown, x, y) <==> x != y && NeighboursIn(first + Observed(w, bs, e), x, y)
  {
    HistoryLosesNothing(w, bs, e);
    CompressKeepsTransitions([w.db.events[e].lastAvailability] + Observed(w, bs, e));
  }

  /** What an overwrite costs: the next poll sees the new availability and records no row for it. */
  lemma OverwriteHidesTransition(w: World, act: Act, job: nat, e: int, o: Outcome)
    requires Consistent(w.db) && Overwrites(w.db, User(act), e) && IsOutcome(Happen(w, User(act)).db, e, o)
    requires Normalise(o.raw).availability == Normalise(act.raw).availability
    ensures Some(Normalise(o.raw).availability) != w.db.events[e].lastAvailability
    ensures RowsFor(Happen(Happen(w, User(act)), Polled(job, e, o)).db.snapshots, e) == RowsFor(w.db.snapshots, e)
  {
    PollHistory(job, Happen(w, User(act)), e, o, e);
  }

  /** A poll that stops between row and update can happen whenever the availability has changed. */
  lemma StopBetweenHappens(w: World, job: nat, e: int, raw: RawEvent, interval: int, at: Time) returns (b: Block)
    requires e in w.db.events && Changed(w.db.events[e], Normalise(raw).availability)
    requires IsMinInterval(w.db, e, interval)
    ensures b.Stopped? && !b.crashed && b.e == e && CanHappen(w, b)
    ensures var pc := Reached(w, b).value.pc; IsBetween(pc) && pc.raw == raw
  {
    var start, ev := Local(w.db, w.log, Get(e)), w.db.events[e];
    var stored := InsertSnapshot(w.db, e, Normalise(raw).availability);
    var steps: seq<Step> := [];
    JobRunExtend(job, start, steps, start, Step(at, Ok));
    steps := steps + [Step(at, Ok)];
    JobRunExtend(job, start, steps, Local(w.db, w.log, Fetch(e, ev)), Step(at, Wire(raw)));
    steps := steps + [Step(at, Wire(raw))];
    JobRunExtend(job, start, steps, Local(w.db, w.log, Insert(e, ev, raw)), Step(at, Ok));
    steps := steps + [Step(at, Ok)];
    assert IsMinInterval(stored, e, interval) by {
      assert forall x :: IsActiveOn(stored, e, x) <==> IsActiveOn(w.db, e, x);
    }
    JobRunExtend(job, start, steps, Local(stored, w.log, Interval(e, ev, raw)), Step(at, Least(interval)));
    b := Stopped(job, e, steps + [Step(at, Least(interval))], false);
  }

  /** Its two consequences: the way back goes unrecorded, and the same availability is recorded twice in a row. */
  lemma StopBetweenBreaksHistory(w: World, b: Block, job: nat, e: int, o: Outcome)
    requires b.Stopped? && b.e == e && Consistent(w.db) && CanHappen(w, b) && IsBetween(Reached(w, b).value.pc)
    requires IsOutcome(Happen(w, b).db, e, o) && e in w.db.events
    ensures var extra := Some(Normalise(Reached(w, b).value.pc.raw).availability);
            var rows := RowsFor(Happen(Happen(w, b), Polled(job, e, o)).db.snapshots, e);
            && extra != w.db.events[e].lastAvailability
            && (Some(Normalise(o.raw).availability) == w.db.events[e].lastAvailability ==>
                  rows == RowsFor(w.db.snapshots, e) + [extra])
            && (Some(Normalise(o.raw).availability) == extra ==>
                  rows == RowsFor(w.db.snapshots, e) + [extra] + [extra])
  {
    StoppedHistory(w, b, e);
    StretchIsMidPoll(b.job, w, b.e, b.steps);
    PollHistory(job, Happen(w, b), e, o, e);
  }

  // ---- one watch over a run ----

  function RowFor(db: Db, x: int): ActiveWatch
    requires x in db.watches && db.watches[x].userId in db.users
  {
    var w := db.watches[x];
    ActiveWatch(x, w.userId, w.lastEvaluation, w.createdAt, db.users[w.userId].verified, db.users[w.userId].unsubscribed)
  }

  /** The watch's row up to its status and notified stamp. */
  predicate SameButStatus(a: WatchRow, b: WatchRow) {
    b == a.(notified := b.notified, status := b.status)
  }

  predicate IsEvaluatedBy(w: World, e: int, x: int) {
    IsActiveOn(w.db, e, x) && w.db.watches[x].userId in w.db.users
  }

  /** Nothing about the watch changed but its status or notified stamp. */
  predicate Untouched(w: World, after: World, x: int) {
    && EvalsOf(after.log, x) == EvalsOf(w.log, x) && AlertsOn(after.log, x) == AlertsOn(w.log, x)
    && (x in after.db.watches <==> x in w.db.watches)
    && (x in w.db.watches && x in after.db.watches ==> SameButStatus(w.db.watches[x], after.db.watches[x]))
  }

  /** The watch was evaluated once, and the result stored. */
  predicate EvaluatedNow(w: World, after: World, poll: Poll, x: int)
    requires x in w.db.watches && w.db.watches[x].userId in w.db.users
  {
    var row := RowFor(w.db, x);
    && x in after.db.watches
    && SameButStatus(w.db.watches[x].(lastEvaluation := VerdictFor(poll, row).statusOnsale), after.db.watches[x])
    && EvalsOf(after.log, x) == EvalsOf(w.log, x) + [EvalFor(poll, row)]
    && OnsaleAlerts(AlertsOn(after.log, x))
       == OnsaleAlerts(AlertsOn(w.log, x)) + (if EvalFor(poll, row).flipped then 1 else 0)
    && (VerdictFor(poll, row).kinds == [] ==> AlertsOn(after.log, x) == AlertsOn(w.log, x))
  }

  lemma ListedIndex(db: Db, e: int, rows: seq<ActiveWatch>, x: int) returns (i: nat)
    requires IsListing(db, e, rows) && IsActiveOn(db, e, x) && db.watches[x].userId in db.users
    ensures i < |rows| && rows[i] == RowFor(db, x)
  {
    i :| 0 <= i < |rows| && rows[i].id == x;
  }

  lemma NotListed(db: Db, e: int, rows: seq<ActiveWatch>, x: int)
    requires IsListing(db, e, rows) && !(IsActiveOn(db, e, x) && db.watches[x].userId in db.users)
    ensures Unlisted(rows, x)
  {
    forall i | 0 <= i < |rows| ensures rows[i].id != x {
      assert IsActiveOn(db, e, rows[i].id) && IsRowOf(db, rows[i]);
    }
  }

  lemma PollOnListed(job: nat, w: World, e: int, o: Outcome, x: int)
    requires IsOutcome(w.db, e, o) && IsEvaluatedBy(w, e, x)
    ensures EvaluatedNow(w, Happen(w, Polled(job, e, o)), PollFor(w.db, e, o), x)
  {
    var poll := PollFor(w.db, e, o);
    var stored := World(StoreCalendar(w.db, e, o.raw, o.next), w.log);
    var settled := Both(SettleRows(job, stored.db, stored.log, poll, o.rows));
    RowsShape(job, stored, poll, o.rows);
    var i := ListedIndex(stored.db, e, o.rows, x);
    ListedEvaluatedOnce(job, stored, poll, o.rows, i);
  }

  lemma PollOnUnlisted(job: nat, w: World, e: int, o: Outcome, x: int)
    requires IsOutcome(w.db, e, o) && !IsEvaluatedBy(w, e, x)
    ensures Untouched(w, Happen(w, Polled(job, e, o)), x)
  {
    var poll := PollFor(w.db, e, o);
    var stored := World(StoreCalendar(w.db, e, o.raw, o.next), w.log);
    var settled := Both(SettleRows(job, stored.db, stored.log, poll, o.rows));
    RowsShape(job, stored, poll, o.rows);
    NotListed(stored.db, e, o.rows, x);
    UnlistedLeftAlone(job, stored, poll, o.rows, x);
  }

  /** What a completed poll does to one watch: evaluates it once if it is active on the event, and nothing otherwise. */
  lemma PollOnWatch(job: nat, w: World, e: int, o: Outcome, x: int)
    requires IsOutcome(w.db, e, o)
    ensures Happen(w, Polled(job, e, o)).db.nextWatchId == w.db.nextWatchId
    ensures !IsEvaluatedBy(w, e, x) ==> Untouched(w, Happen(w, Polled(job, e, o)), x)
    ensures IsEvaluatedBy(w, e, x) ==> EvaluatedNow(w, Happen(w, Polled(job, e, o)), PollFor(w.db, e, o), x)
  {
    RowsShape(job, World(StoreCalendar(w.db, e, o.raw, o.next), w.log), PollFor(w.db, e, o), o.rows);
    if IsEvaluatedBy(w, e, x) {
      PollOnListed(job, w, e, o, x);
    } else {
      PollOnUnlisted(job, w, e, o, x);
    }
  }

  /** What users do never changes an existing watch beyond its status. */
  lemma UserOnWatch(w: World, act: Act, x: int)
    requires Consistent(w.db) && x < w.db.nextWatchId
    ensures var after := Happen(w, User(act));
            && after.log == w.log && x < after.db.nextWatchId
            && (x in after.db.watches ==> x in w.db.watches && SameButStatus(w.db.watches[x], after.db.watches[x]))
  {
  }

  // ---- edge triggering ----

  /**
   The flips recorded since w rise, each was mailed or withheld once, and `extra`
   further on-sale alerts belong to flips that were never recorded.
   */
  ghost predicate Chained(w: World, after: World, x: int, seed: bool, extra: nat, es: seq<Eval>) {
    && FlipsOnlyRise(seed, es)
    && AlertCount(after.log, x) == AlertCount(w.log, x) + CountFlips(es) + extra
    && x < after.db.nextWatchId
    && (x in after.db.watches ==> after.db.watches[x].lastEvaluation == Before(seed, es, |es|))
  }

  lemma EvaluationChains(w: World, mid: World, after: World, poll: Poll, x: int, seed: bool, extra: nat, es: seq<Eval>)
    requires x in mid.db.watches && mid.db.watches[x].userId in mid.db.users
    requires Chained(w, mid, x, seed, extra, es) && EvaluatedNow(mid, after, poll, x)
    requires after.db.nextWatchId == mid.db.nextWatchId
    ensures Chained(w, after, x, seed, extra, es + [EvalFor(poll, RowFor(mid.db, x))])
  {
    var e := EvalFor(poll, RowFor(mid.db, x));
    VerdictReportsExactlyWhatIsDue(poll.obs, PriorOf(poll, RowFor(mid.db, x)));
    FlipsAppended(seed, es, e);
    assert (es + [e])[..|es|] == es;
  }

  /** The evaluations a watch has had since an earlier moment. */
  function EvalsSince(w: World, after: World, x: int): seq<Eval>
    requires EvalsOf(w.log, x) <= EvalsOf(after.log, x)
  {
    EvalsOf(after.log, x)[|EvalsOf(w.log, x)|..]
  }

  ghost predicate RisesSince(w: World, after: World, x: int, seed: bool, extra: nat) {
    EvalsOf(w.log, x) <= EvalsOf(after.log, x) && Chained(w, after, x, seed, extra, EvalsSince(w, after, x))
  }

  // ---- ... through a poll on its way ----

  /** The rows a job still has to deal with show the signals as they are stored. */
  ghost predicate PendingMatches(l: Local) {
    forall r :: r in Ledger.RowsOf(l.pc) ==>
      r.id in l.db.watches && l.db.watches[r.id].lastEvaluation == r.lastEvaluation
  }

  lemma MoveKeepsPending(job: nat, l: Local, at: Time, r: Reply)
    requires PendingMatches(l) && IsWellPlaced(l.pc) && CanAnswer(l, r)
    ensures PendingMatches(Advance(job, l, at, r))
  {
    if l.pc.Record? {
      if r.Ok? {
        RestAreOthers(l.pc.row, l.pc.rows);
        Ledger.NextRowsAreRows(l.pc.poll, l.pc.rows, l.pc.closing);
        assert forall q :: q in l.pc.rows ==> q in Ledger.RowsOf(l.pc);
      }
    } else if l.pc.List? {
      if r.Rows? {
        Ledger.NextRowsAreRows(l.pc.poll, r.rows, false);
      }
    } else {
      OtherMoveKeepsPending(job, l, at, r);
    }
  }

  lemma OtherMoveKeepsPending(job: nat, l: Local, at: Time, r: Reply)
    requires PendingMatches(l) && CanAnswer(l, r) && !l.pc.Record? && !l.pc.List?
    ensures PendingMatches(Advance(job, l, at, r))
  {
  }

  ghost predicate SignalMid(w: World, l: Local, x: int, seed: bool, extra: nat) {
    && IsWellPlaced(l.pc) && (l.pc.Claim? ==> l.pc.kind != StatusOnsale) && PendingMatches(l)
    && RisesSince(w, World(l.db, l.log), x, seed, extra + OutCount(l.pc, x))
  }

  lemma MoveLeavesStoredSignal(job: nat, l: Local, at: Time, r: Reply, x: int)
    requires CanAnswer(l, r) && !(l.pc.Record? && r.Ok? && l.pc.row.id == x)
    ensures var l' := Advance(job, l, at, r);
            && l'.db.nextWatchId == l.db.nextWatchId && (x in l'.db.watches <==> x in l.db.watches)
            && (x in l.db.watches ==> l'.db.watches[x].lastEvaluation == l.db.watches[x].lastEvaluation)
  {
  }

  lemma SinceExtended(w: World, mid: World, after: World, x: int, e: Eval)
    requires EvalsOf(w.log, x) <= EvalsOf(mid.log, x) && EvalsOf(after.log, x) == EvalsOf(mid.log, x) + [e]
    ensures EvalsOf(w.log, x) <= EvalsOf(after.log, x)
    ensures EvalsSince(w, after, x) == EvalsSince(w, mid, x) + [e]
  {
  }

  /** The call that stores the signal and records the evaluation. */
  lemma MoveRecordsSignal(job: nat, w: World, mid: World, after: World, x: int, seed: bool, extra: nat, out: nat, e: Eval)
    requires RisesSince(w, mid, x, seed, extra + out) && out == (if e.flipped then 1 else 0)
    requires e.flipped ==> e.onsale && !Before(seed, EvalsSince(w, mid, x), |EvalsSince(w, mid, x)|)
    requires after.log == mid.log + [Evaluated(job, x, e.onsale, e.flipped)]
    requires after.db == SetLastEvaluation(mid.db, x, e.onsale)
    ensures RisesSince(w, after, x, seed, extra)
  {
    EvaluationCounts(mid.log, job, x, e.onsale, e.flipped, x);
    SinceExtended(w, mid, after, x, e);
    FlipsAppended(seed, EvalsSince(w, mid, x), e);
    assert (EvalsSince(w, mid, x) + [e])[..|EvalsSince(w, mid, x)|] == EvalsSince(w, mid, x);
  }

  lemma ClaimsAreNeeded(job: nat, l: Local, at: Time, r: Reply)
    requires (l.pc.Claim? ==> l.pc.kind != StatusOnsale) && CanAnswer(l, r)
    ensures var pc := Advance(job, l, at, r).pc;
            pc.Claim? ==> pc.kind != StatusOnsale
  {
  }

  lemma MoveKeepsSignal(job: nat, w: World, l: Local, at: Time, r: Reply, x: int, seed: bool, extra: nat)
    requires SignalMid(w, l, x, seed, extra) && CanAnswer(l, r) && Advance(job, l, at, r).pc != Done(false)
    ensures SignalMid(w, Advance(job, l, at, r), x, seed, extra)
  {
    var l' := Advance(job, l, at, r);
    MoveKeepsPending(job, l, at, r);
    ClaimsAreNeeded(job, l, at, r);
    MoveIsBalanced(job, l, at, r, x);
    assert RisesSince(w, World(l'.db, l'.log), x, seed, extra + OutCount(l'.pc, x)) by {
      if l.pc.Record? && r.Ok? && l.pc.row.id == x {
        assert l.pc.row in Ledger.RowsOf(l.pc);
        FlipNeedsOffSignal(l.pc.poll, l.pc.row);
        RecordPlaces(l.pc, x);
        MoveRecordsSignal(job, w, World(l.db, l.log), World(l'.db, l'.log), x, seed, extra, OutCount(l.pc, x),
                          EvalFor(l.pc.poll, l.pc.row));
      } else {
        MoveEvaluates(job, l, at, r, x);
        MoveIsBalanced(job, l, at, r, x);
        MoveLeavesStoredSignal(job, l, at, r, x);
      }
    }
  }

  lemma {:induction false} StretchKeepsSignal(job: nat, w: World, mid: World, e: int, steps: seq<Step>, end: Local, x: int, seed: bool,
                                              extra: nat)
    requires RisesSince(w, mid, x, seed, extra) && end.pc != Done(false)
    requires JobRun(job, Local(mid.db, mid.log, Get(e)), steps) == Some(end)
    ensures SignalMid(w, end, x, seed, extra)
  {
    if steps != [] {
      var n := |steps| - 1;
      var before := LastCall(job, Local(mid.db, mid.log, Get(e)), steps, end);
      StretchKeepsSignal(job, w, mid, e, steps[..n], before, x, seed, extra);
      MoveKeepsSignal(job, w, before, steps[n].at, steps[n].reply, x, seed, extra);
    } else {
      assert World(mid.db, mid.log) == mid;
    }
  }

  /** The poll stopped with the watch's flip mailed or withheld and its signal not stored: between Deliver and Record. */
  ghost predicate StopsWithFlipOut(w: World, b: Block, x: int) {
    b.Stopped? && Reached(w, b).Some? && FlipIsOut(Reached(w, b).value.pc, x)
  }

  /** How many polls of a run stopped that way. */
  ghost function FlipsLeftOut(w: World, bs: seq<Block>, x: int): nat {
    if bs == [] then 0
    else
      var n := |bs| - 1;
      FlipsLeftOut(w, bs[..n], x) + if StopsWithFlipOut(RunBlocks(w, bs[..n]), bs[n], x) then 1 else 0
  }

  lemma StoppedKeepsRises(w: World, mid: World, b: Block, x: int, seed: bool, extra: nat)
    requires b.Stopped? && CanHappen(mid, b) && RisesSince(w, mid, x, seed, extra)
    ensures RisesSince(w, Happen(mid, b), x, seed, extra + if StopsWithFlipOut(mid, b, x) then 1 else 0)
  {
    var l := Reached(mid, b).value;
    StretchKeepsSignal(b.job, w, mid, b.e, b.steps, l, x, seed, extra);
    LostCounts(l.log, Lost(b.job, b.crashed, l.pc), x);
    assert EvalsSince(w, Happen(mid, b), x) == EvalsSince(w, World(l.db, l.log), x);
  }

  lemma PolledKeepsRises(w: World, mid: World, job: nat, e: int, o: Outcome, x: int, seed: bool, extra: nat)
    requires IsOutcome(mid.db, e, o) && RisesSince(w, mid, x, seed, extra)
    ensures RisesSince(w, Happen(mid, Polled(job, e, o)), x, seed, extra)
  {
    var after := Happen(mid, Polled(job, e, o));
    PollOnWatch(job, mid, e, o, x);
    if IsEvaluatedBy(mid, e, x) {
      EvaluationKeepsRises(w, mid, after, PollFor(mid.db, e, o), x, seed, extra);
    } else {
      assert EvalsSince(w, after, x) == EvalsSince(w, mid, x);
    }
  }

  lemma EvaluationKeepsRises(w: World, mid: World, after: World, poll: Poll, x: int, seed: bool, extra: nat)
    requires x in mid.db.watches && mid.db.watches[x].userId in mid.db.users
    requires RisesSince(w, mid, x, seed, extra) && EvaluatedNow(mid, after, poll, x)
    requires after.db.nextWatchId == mid.db.nextWatchId
    ensures RisesSince(w, after, x, seed, extra)
  {
    var ev := EvalFor(poll, RowFor(mid.db, x));
    SinceExtended(w, mid, after, x, ev);
    EvaluationChains(w, mid, after, poll, x, seed, extra, EvalsSince(w, mid, x));
  }

  lemma BlockKeepsRises(w: World, mid: World, b: Block, x: int, seed: bool, extra: nat)
    requires CanHappen(mid, b) && Consistent(mid.db) && RisesSince(w, mid, x, seed, extra)
    ensures RisesSince(w, Happen(mid, b), x, seed, extra + if StopsWithFlipOut(mid, b, x) then 1 else 0)
  {
    match b
    case User(act) =>
      UserOnWatch(mid, act, x);
      assert EvalsSince(w, Happen(mid, b), x) == EvalsSince(w, mid, x);
    case Stopped(_, _, _, _) => StoppedKeepsRises(w, mid, b, x, seed, extra);
    case Polled(job, e, o) => PolledKeepsRises(w, mid, job, e, o, x, seed, extra);
  }

  /**
   Over any serial run, whatever fails, is paused, resumed or created meanwhile:
   the on-sale flips recorded for a watch are rising edges of the signal that
   starts with the value stored in the watch, each is mailed or withheld exactly
   once, the stored value is the last one recorded, and every further on-sale alert
   belongs to a poll that stopped between Deliver and Record.
   */
  lemma {:induction false} FlipsAreRisingEdges(w: World, bs: seq<Block>, x: int)
    requires IsSerial(w, bs) && Consistent(w.db) && x in w.db.watches
    ensures RisesSince(w, RunBlocks(w, bs), x, w.db.watches[x].lastEvaluation, FlipsLeftOut(w, bs, x))
  {
    if bs != [] {
      var front := bs[..|bs| - 1];
      IsSerialFront(w, bs);
      RunKeepsConsistent(w, front);
      FlipsAreRisingEdges(w, front, x);
      BlockKeepsRises(w, RunBlocks(w, front), bs[|bs| - 1], x, w.db.watches[x].lastEvaluation, FlipsLeftOut(w, front, x));
    }
  }

  /**
   The on-sale alerts of a watch: at most one for each rising edge of its recorded
   signal and one for each poll that stopped between Deliver and Record. There is
   exactly one per recorded flip if and only if no poll stopped there.
   */
  lemma OnsaleAlertsBounded(w: World, bs: seq<Block>, x: int)
    requires IsSerial(w, bs) && Consistent(w.db) && x in w.db.watches
    ensures var after := RunBlocks(w, bs);
            && EvalsOf(w.log, x) <= EvalsOf(after.log, x)
            && var alerts, es := AlertCount(after.log, x) - AlertCount(w.log, x), EvalsSince(w, after, x);
               && alerts <= CountRises(w.db.watches[x].lastEvaluation, es) + FlipsLeftOut(w, bs, x)
               && (alerts == CountFlips(es) <==> FlipsLeftOut(w, bs, x) == 0)
  {
    FlipsAreRisingEdges(w, bs, x);
    FlipsAreSeparated(w.db.watches[x].lastEvaluation, EvalsSince(w, RunBlocks(w, bs), x));
  }

  // ---- a watch created on an event already on sale ----

  /** Read at that moment, the answer is on sale and has nothing newer than the watch: no window that opened after it, no sale that has ended. */
  predicate IsQuietAnswer(raw: RawEvent, now: Time, createdAt: Time) {
    var s := Normalise(raw);
    && s.availability == "onsale" && createdAt <= now
    && (s.publicStart.Some? ==> s.publicStart.value <= createdAt)
    && (s.presale.Some? ==> s.presale.value.start <= createdAt)
    && (s.publicEnd.Some? ==> now <= s.publicEnd.value)
  }

  /** Every poll of the block, completed or not, sees nothing newer than the watch. */
  ghost predicate IsQuietBlock(w: World, b: Block, createdAt: Time) {
    match b
    case Polled(_, _, o) => IsQuietAnswer(o.raw, o.now, createdAt)
    case Stopped(job, e, steps, _) =>
      forall n :: 0 <= n < |steps| ==> IsQuietCall(JobRun(job, Local(w.db, w.log, Get(e)), steps[..n]), steps[n].at, createdAt)
    case User(_) => true
  }

  /** If the call is the update, after which the clock is read for the observation, the answer it stores is quiet at that moment. */
  ghost predicate IsQuietCall(l: Option<Local>, at: Time, createdAt: Time) {
    l.Some? && l.value.pc.Update? ==> IsQuietAnswer(l.value.pc.raw, at, createdAt)
  }

  /** What a poll makes of a quiet answer. */
  lemma QuietIsObserved(e: int, ev: EventRow, raw: RawEvent, now: Time, createdAt: Time)
    requires IsQuietAnswer(raw, now, createdAt)
    ensures IsQuiet(PollOf(e, ev, raw, now).obs, createdAt)
  {
  }

  lemma MoveKeepsQuietPoll(job: nat, l: Local, at: Time, r: Reply, createdAt: Time)
    requires CanAnswer(l, r) && IsQuietStretch(Some(l), createdAt) && IsQuietCall(Some(l), at, createdAt)
    ensures IsQuietStretch(Some(Advance(job, l, at, r)), createdAt)
  {
    if l.pc.Update? {
      QuietIsObserved(l.pc.eventId, l.pc.ev, l.pc.raw, at, createdAt);
    }
  }

  ghost predicate IsQuietStretch(l: Option<Local>, createdAt: Time) {
    l.Some? && PollIn(l.value.pc).Some? ==> IsQuiet(PollIn(l.value.pc).value.obs, createdAt)
  }

  predicate Concerns(b: Block, e: int) {
    !b.User? && b.e == e
  }

  /** The job has the watch only to record it, with the signal and the creation time it had, in a quiet poll. */
  ghost predicate HasQuietRows(pc: Pc, x: int, createdAt: Time) {
    && (forall r :: r in Ledger.RowsOf(pc) && r.id == x ==>
          r.lastEvaluation && r.createdAt == createdAt && PollIn(pc).Some? && IsQuiet(PollIn(pc).value.obs, createdAt))
    && (HasRow(pc) && pc.row.id == x ==> pc.Record?)
  }

  ghost predicate IsSilent(first: World, w: World, x: int)
    requires x in first.db.watches
  {
    && AlertsOn(w.log, x) == AlertsOn(first.log, x)
    && x < w.db.nextWatchId
    && (x in w.db.watches ==> SameButStatus(first.db.watches[x], w.db.watches[x]))
  }

  lemma NextRowIsQuiet(p: Poll, rows: seq<ActiveWatch>, closing: bool, x: int, createdAt: Time)
    requires forall r :: r in rows && r.id == x ==> r.lastEvaluation && r.createdAt == createdAt && IsQuiet(p.obs, createdAt)
    ensures HasQuietRows(NextRow(p, rows, closing), x, createdAt)
  {
    Ledger.NextRowsAreRows(p, rows, closing);
    if rows != [] && rows[0].id == x {
      QuietRaisesNothing(p.obs, PriorOf(p, rows[0]), createdAt);
    }
  }

  /** A row just listed shows the watch as it is stored. */
  lemma ListedQuietRows(first: World, l: Local, rows: seq<ActiveWatch>, x: int)
    requires x in first.db.watches && first.db.watches[x].lastEvaluation && IsSilent(first, World(l.db, l.log), x)
    requires l.pc.List? && IsListing(l.db, l.pc.poll.eventId, rows)
    requires l.pc.poll.eventId == first.db.watches[x].eventId ==> IsQuiet(l.pc.poll.obs, first.db.watches[x].createdAt)
    ensures forall r :: r in rows && r.id == x ==>
              r.lastEvaluation && r.createdAt == first.db.watches[x].createdAt
              && IsQuiet(l.pc.poll.obs, first.db.watches[x].createdAt)
  {
    forall r | r in rows && r.id == x
      ensures r.lastEvaluation && r.createdAt == first.db.watches[x].createdAt
              && IsQuiet(l.pc.poll.obs, first.db.watches[x].createdAt)
    {
      var i :| 0 <= i < |rows| && rows[i] == r;
      assert IsActiveOn(l.db, l.pc.poll.eventId, rows[i].id) && IsRowOf(l.db, rows[i]);
    }
  }

  lemma MoveKeepsQuietRows(job: nat, first: World, l: Local, at: Time, r: Reply, x: int)
    requires x in first.db.watches && first.db.watches[x].lastEvaluation && CanAnswer(l, r)
    requires IsSilent(first, World(l.db, l.log), x) && HasQuietRows(l.pc, x, first.db.watches[x].createdAt)
    requires l.pc.List? && l.pc.poll.eventId == first.db.watches[x].eventId ==>
               IsQuiet(l.pc.poll.obs, first.db.watches[x].createdAt)
    ensures HasQuietRows(Advance(job, l, at, r).pc, x, first.db.watches[x].createdAt)
  {
    if l.pc.List? && r.Rows? {
      ListedQuietRows(first, l, r.rows, x);
      NextRowIsQuiet(l.pc.poll, r.rows, false, x, first.db.watches[x].createdAt);
    } else if l.pc.Record? && r.Ok? {
      assert forall q :: q in l.pc.rows ==> q in Ledger.RowsOf(l.pc);
      NextRowIsQuiet(l.pc.poll, l.pc.rows, l.pc.closing, x, first.db.watches[x].createdAt);
    }
  }

  lemma RecordKeepsSilence(job: nat, first: World, mid: World, w: int, onsale: bool, flipped: bool, x: int)
    requires x in first.db.watches && first.db.watches[x].lastEvaluation
    requires IsSilent(first, mid, x) && (w == x ==> onsale)
    ensures IsSilent(first, World(SetLastEvaluation(mid.db, w, onsale), mid.log + [Evaluated(job, w, onsale, flipped)]), x)
  {
    LogAppended(mid.log, Evaluated(job, w, onsale, flipped));
  }

  lemma OtherMoveKeepsAlerts(job: nat, l: Local, at: Time, r: Reply, x: int)
    requires !l.pc.Record? && CanAnswer(l, r) && (HasRow(l.pc) ==> l.pc.row.id != x)
    ensures AlertsOn(Advance(job, l, at, r).log, x) == AlertsOn(l.log, x)
  {
    if l.pc.Claim? {
      LogAppended(l.log, Won(job, l.pc.row.id, l.pc.kind));
    } else if l.pc.Deliver? {
      LogAppended(l.log, if MayMail(l.pc.row) then Sent(job, l.pc.row, l.pc.kind) else Withheld(job, l.pc.row.id, l.pc.kind));
    }
  }

  lemma MoveKeepsSilence(job: nat, first: World, l: Local, at: Time, r: Reply, x: int)
    requires x in first.db.watches && first.db.watches[x].lastEvaluation && CanAnswer(l, r)
    requires IsSilent(first, World(l.db, l.log), x) && HasQuietRows(l.pc, x, first.db.watches[x].createdAt)
    ensures IsSilent(first, World(Advance(job, l, at, r).db, Advance(job, l, at, r).log), x)
  {
    if l.pc.Record? {
      var v := VerdictFor(l.pc.poll, l.pc.row);
      if l.pc.row.id == x {
        assert l.pc.row in Ledger.RowsOf(l.pc);
        QuietRaisesNothing(l.pc.poll.obs, PriorOf(l.pc.poll, l.pc.row), first.db.watches[x].createdAt);
      }
      RecordKeepsSilence(job, first, World(l.db, l.log), l.pc.row.id, v.statusOnsale, StatusOnsale in v.kinds, x);
    } else {
      OtherMoveKeepsAlerts(job, l, at, r, x);
    }
  }

  lemma {:induction false} StretchIsSilent(job: nat, first: World, mid: World, e: int, steps: seq<Step>, x: int)
    requires x in first.db.watches && first.db.watches[x].lastEvaluation && Consistent(mid.db) && IsSilent(first, mid, x)
    requires JobRun(job, Local(mid.db, mid.log, Get(e)), steps).Some?
    requires e == first.db.watches[x].eventId ==>
               forall n :: 0 <= n < |steps| ==>
                 IsQuietCall(JobRun(job, Local(mid.db, mid.log, Get(e)), steps[..n]), steps[n].at, first.db.watches[x].createdAt)
    ensures var l := JobRun(job, Local(mid.db, mid.log, Get(e)), steps).value;
            && IsSilent(first, World(l.db, l.log), x) && HasQuietRows(l.pc, x, first.db.watches[x].createdAt)
            && (e == first.db.watches[x].eventId ==> IsQuietStretch(Some(l), first.db.watches[x].createdAt))
  {
    if steps != [] {
      var n := |steps| - 1;
      var start := Local(mid.db, mid.log, Get(e));
      var l := JobRun(job, start, steps[..n]).value;
      assert forall m :: 0 <= m < n ==> steps[..n][..m] == steps[..m] && steps[..n][m] == steps[m];
      StretchIsSilent(job, first, mid, e, steps[..n], x);
      StretchIsMidPoll(job, mid, e, steps[..n]);
      if e == first.db.watches[x].eventId {
        MoveKeepsQuietPoll(job, l, steps[n].at, steps[n].reply, first.db.watches[x].createdAt);
      }
      MoveKeepsSilence(job, first, l, steps[n].at, steps[n].reply, x);
      MoveKeepsQuietRows(job, first, l, steps[n].at, steps[n].reply, x);
    }
  }

  lemma StoppedIsSilent(first: World, mid: World, b: Block, x: int)
    requires x in first.db.watches && first.db.watches[x].lastEvaluation && Consistent(mid.db) && IsSilent(first, mid, x)
    requires b.Stopped? && CanHappen(mid, b)
    requires b.e == first.db.watches[x].eventId ==> IsQuietBlock(mid, b, first.db.watches[x].createdAt)
    ensures IsSilent(first, Happen(mid, b), x)
  {
    StretchIsSilent(b.job, first, mid, b.e, b.steps, x);
    var l := Reached(mid, b).value;
    if b.crashed && l.pc.Deliver? {
      LogAppended(l.log, Abandoned(b.job, l.pc.row.id, l.pc.kind));
    } else {
      assert l.log + [] == l.log;
    }
  }

  lemma PolledIsSilent(first: World, mid: World, job: nat, e: int, o: Outcome, x: int)
    requires x in first.db.watches && first.db.watches[x].lastEvaluation && Consistent(mid.db) && IsSilent(first, mid, x)
    requires IsOutcome(mid.db, e, o)
    requires e == first.db.watches[x].eventId ==> IsQuietAnswer(o.raw, o.now, first.db.watches[x].createdAt)
    ensures IsSilent(first, Happen(mid, Polled(job, e, o)), x)
  {
    PollOnWatch(job, mid, e, o, x);
    if IsEvaluatedBy(mid, e, x) {
      var poll, row := PollFor(mid.db, e, o), RowFor(mid.db, x);
      QuietIsObserved(e, mid.db.events[e], o.raw, o.now, first.db.watches[x].createdAt);
      QuietRaisesNothing(poll.obs, PriorOf(poll, row), first.db.watches[x].createdAt);
    }
  }

  /** Every poll of the watch's event in the run sees nothing newer than the watch. */
  ghost predicate IsQuietRun(w: World, bs: seq<Block>, x: int)
    requires x in w.db.watches
  {
    forall i :: 0 <= i < |bs| && Concerns(bs[i], w.db.watches[x].eventId) ==>
      IsQuietBlock(RunBlocks(w, bs[..i]), bs[i], w.db.watches[x].createdAt)
  }

  /**
   A watch whose stored signal is on sale raises no alert of any kind in any
   number of polls, completed or not, as long as its event stays on sale and shows
   no window that opened after the watch was created and no sale that has ended;
   the event may come to lie in the past, and the onsale date may be known or not.
   */
  lemma {:induction false} SilentWatchStaysSilent(w: World, bs: seq<Block>, x: int)
    requires IsSerial(w, bs) && Consistent(w.db) && x in w.db.watches && w.db.watches[x].lastEvaluation
    requires IsQuietRun(w, bs, x)
    ensures IsSilent(w, RunBlocks(w, bs), x)
  {
    if bs != [] {
      var front := bs[..|bs| - 1];
      IsSerialFront(w, bs);
      RunKeepsConsistent(w, front);
      QuietFront(w, bs, x);
      SilentWatchStaysSilent(w, front, x);
      BlockIsSilent(w, RunBlocks(w, front), bs[|bs| - 1], x);
    }
  }

  lemma QuietFront(w: World, bs: seq<Block>, x: int)
    requires x in w.db.watches && IsQuietRun(w, bs, x) && bs != []
    ensures IsQuietRun(w, bs[..|bs| - 1], x)
    ensures Concerns(bs[|bs| - 1], w.db.watches[x].eventId) ==>
              IsQuietBlock(RunBlocks(w, bs[..|bs| - 1]), bs[|bs| - 1], w.db.watches[x].createdAt)
  {
    var front := bs[..|bs| - 1];
    assert forall i :: 0 <= i < |front| ==> front[..i] == bs[..i] && front[i] == bs[i];
  }

  lemma BlockIsSilent(w: World, mid: World, b: Block, x: int)
    requires x in w.db.watches && w.db.watches[x].lastEvaluation && Consistent(mid.db) && IsSilent(w, mid, x)
    requires CanHappen(mid, b)
    requires Concerns(b, w.db.watches[x].eventId) ==> IsQuietBlock(mid, b, w.db.watches[x].createdAt)
    ensures IsSilent(w, Happen(mid, b), x)
  {
    match b
    case User(act) => UserOnWatch(mid, act, x);
    case Stopped(_, _, _, _) => StoppedIsSilent(w, mid, b, x);
    case Polled(job, e, o) => PolledIsSilent(w, mid, job, e, o, x);
  }

  // ---- events that are over ----

  /** The row's own event date has passed. */
  predicate IsDatePast(ev: EventRow, now: Time) {
    ev.eventDate.Some? && ev.eventDate.value < now
  }

  ghost predicate NoActiveWatch(db: Db, e: int) {
    forall x :: !IsActiveOn(db, e, x)
  }

  /**
   A completed poll of an event that is past by its row, or cancelled by the answer,
   leaves it without active watches, and adds no alert if it is past. A poll of any
   other event pauses and resumes nothing, and no poll touches another event's watches.
   */
  lemma DeadEventIsClosed(job: nat, w: World, e: int, o: Outcome)
    requires IsOutcome(w.db, e, o) && Consistent(w.db)
    ensures var after := Happen(w, Polled(job, e, o));
            var past := IsDatePast(w.db.events[e], o.now);
            && (past || Normalise(o.raw).availability == "cancelled" ==> NoActiveWatch(after.db, e))
            && (past ==> forall x :: AlertsOn(after.log, x) == AlertsOn(w.log, x))
            && forall x :: x in w.db.watches ==>
                 && x in after.db.watches
                 && (w.db.watches[x].eventId != e || (!past && Normalise(o.raw).availability != "cancelled") ==>
                       after.db.watches[x].status == w.db.watches[x].status)
  {
    var poll := PollFor(w.db, e, o);
    var stored := World(StoreCalendar(w.db, e, o.raw, o.next), w.log);
    RowsShape(job, stored, poll, o.rows);
    ClosesWhenDead(w.db, e, o);
    if IsDatePast(w.db.events[e], o.now) || Normalise(o.raw).availability == "cancelled" {
      if |o.rows| == 0 {
        forall x ensures !IsActiveOn(stored.db, e, x) {
        }
      } else {
        assert VerdictFor(poll, o.rows[0]).closeWatch;
        assert AnyCloses(poll, o.rows);
      }
    }
    forall x | IsDatePast(w.db.events[e], o.now) ensures AlertsOn(Happen(w, Polled(job, e, o)).log, x) == AlertsOn(w.log, x) {
      PollOnWatch(job, w, e, o, x);
    }
  }

  lemma ClosesWhenDead(db: Db, e: int, o: Outcome)
    requires e in db.events
    ensures IsPast(PollFor(db, e, o).obs) <==> IsDatePast(db.events[e], o.now)
    ensures forall r :: VerdictFor(PollFor(db, e, o), r).closeWatch <==>
              IsDatePast(db.events[e], o.now) || Normalise(o.raw).availability == "cancelled"
    ensures IsPast(PollFor(db, e, o).obs) ==> forall r :: VerdictFor(PollFor(db, e, o), r).kinds == []
  {
  }

  /** A user creates a watch on the event or resumes one. */
  predicate Revives(db: Db, b: Block, e: int) {
    b.User? &&
    match b.act
    case ActInsertWatch(_, f, _, _, _) => f == e
    case ActUpdateWatch(x, _, status) => status == Some(Active) && x in db.watches && db.watches[x].eventId == e
    case _ => false
  }

  /** Once without active watches, an event is never due again at any time, until a user revives it. */
  lemma {:induction false} ClosedEventIsNeverDue(w: World, bs: seq<Block>, e: int)
    requires IsSerial(w, bs) && Consistent(w.db) && NoActiveWatch(w.db, e)
    requires forall i :: 0 <= i < |bs| ==> !Revives(RunBlocks(w, bs[..i]).db, bs[i], e)
    ensures NoActiveWatch(RunBlocks(w, bs).db, e)
    ensures forall now :: !IsDueEvent(RunBlocks(w, bs).db, e, now)
  {
    if bs != [] {
      var front, b := bs[..|bs| - 1], bs[|bs| - 1];
      IsSerialFront(w, bs);
      RunKeepsConsistent(w, front);
      forall i | 0 <= i < |front| ensures !Revives(RunBlocks(w, front[..i]).db, front[i], e) {
        assert front[..i] == bs[..i];
      }
      ClosedEventIsNeverDue(w, front, e);
      assert !Revives(RunBlocks(w, front).db, b, e);
      BlockKeepsClosed(RunBlocks(w, front), b, e);
    }
  }

  lemma BlockKeepsClosed(w: World, b: Block, e: int)
    requires CanHappen(w, b) && Consistent(w.db) && NoActiveWatch(w.db, e) && !Revives(w.db, b, e)
    ensures NoActiveWatch(Happen(w, b).db, e)
  {
    forall x ensures !IsActiveOn(Happen(w, b).db, e, x) {
      assert !IsActiveOn(w.db, e, x);
      match b
      case User(act) =>
      case Stopped(job, f, steps, _) => StretchIsMidPoll(job, w, f, steps);
      case Polled(job, f, o) => PollNeverActivates(job, w, f, o, x);
    }
  }

  lemma PollNeverActivates(job: nat, w: World, f: int, o: Outcome, x: int)
    requires IsOutcome(w.db, f, o)
    ensures var after := Happen(w, Polled(job, f, o)).db;
            x in after.watches && after.watches[x].status == Active ==>
              x in w.db.watches && w.db.watches[x].status == Active && w.db.watches[x].eventId == after.watches[x].eventId
  {
    RowsShape(job, World(StoreCalendar(w.db, f, o.raw, o.next), w.log), PollFor(w.db, f, o), o.rows);
  }
}
