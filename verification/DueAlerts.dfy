/**
 What a completed poll does, read off the row as it was before, Ticketmaster's
 answer, the clock and the watch: which alerts it owes, that it settles each of
 them and no other, what it records, and when the event is due again.
 */
module DueAlerts {
  import opened Basics
  import opened Ticketmaster
  import opened Evaluator
  import opened AlertStore
  import opened AlertEngine
  import opened WatchSignal
  import opened SerialPolls

  // ---- what is due ----

  /** No veto applies: the date lies ahead, and the event is neither cancelled nor moved. */
  predicate IsOn(ev: EventRow, s: Snapshot, now: Time) {
    !IsDatePast(ev, now) && s.availability !in {"cancelled", "postponed", "rescheduled"}
  }

  predicate HasEnded(s: Snapshot, now: Time) {
    s.publicEnd.Some? && s.publicEnd.value < now
  }

  /** The moment has come, and had not when the watch was created. */
  predicate HasOpened(t: Option<Time>, now: Time, watch: WatchRow) {
    t.Some? && watch.createdAt < t.value <= now
  }

  /** When a poll owes a kind to a watch. Only an announcement compares the row before the poll with the answer. */
  predicate IsOwed(k: Kind, ev: EventRow, raw: RawEvent, now: Time, watch: WatchRow) {
    var s := Normalise(raw);
    match k
    case Cancelled => !IsDatePast(ev, now) && s.availability == "cancelled"
    case Rescheduled => !IsDatePast(ev, now) && s.availability in {"postponed", "rescheduled"}
    case SaleClosed => IsOn(ev, s, now) && HasEnded(s, now)
    case OnsaleAnnounced => IsOn(ev, s, now) && ev.publicStart.None? && s.publicStart.Some? && now < s.publicStart.value
    case PresaleOpen =>
      && IsOn(ev, s, now) && !HasEnded(s, now)
      && HasOpened(if s.presale.Some? then Some(s.presale.value.start) else None, now, watch)
    case PublicOpen =>
      IsOn(ev, s, now) && !HasEnded(s, now) && s.availability == "onsale" && HasOpened(s.publicStart, now, watch)
    case StatusOnsale =>
      && IsOn(ev, s, now) && !HasEnded(s, now) && s.availability == "onsale"
      && s.publicStart.None? && !watch.lastEvaluation
  }

  lemma OwedIsReported(db: Db, e: int, o: Outcome, x: int)
    requires e in db.events && x in db.watches && db.watches[x].userId in db.users
    ensures forall k :: k in VerdictFor(PollFor(db, e, o), RowFor(db, x)).kinds <==>
              IsOwed(k, db.events[e], o.raw, o.now, db.watches[x])
  {
    var obs, p := PollFor(db, e, o).obs, PriorOf(PollFor(db, e, o), RowFor(db, x));
    VerdictReportsExactlyWhatIsDue(obs, p);
    forall k ensures IsDue(k, obs, p) <==> IsOwed(k, db.events[e], o.raw, o.now, db.watches[x]) {
      OwedIsDue(db, e, o, x, k);
    }
  }

  lemma OwedIsDue(db: Db, e: int, o: Outcome, x: int, k: Kind)
    requires e in db.events && x in db.watches && db.watches[x].userId in db.users
    ensures IsDue(k, PollFor(db, e, o).obs, PriorOf(PollFor(db, e, o), RowFor(db, x)))
       <==> IsOwed(k, db.events[e], o.raw, o.now, db.watches[x])
  {
  }

  // ---- nothing due is missed ----

  /** The pair was settled by this job in this stretch: mailed or withheld as consent says. */
  predicate IsSettled(job: nat, row: ActiveWatch, k: Kind, log: seq<Entry>) {
    (if row.verified && !row.unsubscribed then Sent(job, row, k) else Withheld(job, row.id, k)) in log
  }

  lemma StaysSettled(job: nat, row: ActiveWatch, k: Kind, log: seq<Entry>, more: seq<Entry>)
    requires IsSettled(job, row, k, log) && log <= more
    ensures IsSettled(job, row, k, more)
  {
    var e := if MayMail(row) then Sent(job, row, k) else Withheld(job, row.id, k);
    var i :| 0 <= i < |log| && log[i] == e;
    assert more[i] == e;
  }

  lemma {:induction false} KindsSettleDue(job: nat, db: Db, log: seq<Entry>, row: ActiveWatch, kinds: seq<Kind>, k: Kind)
    requires k in kinds && (k != StatusOnsale ==> (row.id, k) !in db.claims)
    ensures IsSettled(job, row, k, SettleKinds(job, db, log, row, kinds).1)
    ensures k != StatusOnsale ==> (row.id, k) in SettleKinds(job, db, log, row, kinds).0.claims
    decreases |kinds|
  {
    var (db1, log1) := SettleKind(job, db, log, row, kinds[0]);
    if kinds[0] == k {
      assert IsSettled(job, row, k, log1) by {
        assert log1[|log1| - 1] == if MayMail(row) then Sent(job, row, k) else Withheld(job, row.id, k);
      }
      KindsKeepLog(job, db1, log1, row, kinds[1..]);
      StaysSettled(job, row, k, log1, SettleKinds(job, db1, log1, row, kinds[1..]).1);
      KindsClaimOwn(job, db1, log1, row, kinds[1..]);
    } else {
      assert k in kinds[1..];
      KindsSettleDue(job, db1, log1, row, kinds[1..], k);
    }
  }

  lemma {:induction false} KindsKeepLog(job: nat, db: Db, log: seq<Entry>, row: ActiveWatch, kinds: seq<Kind>)
    ensures log <= SettleKinds(job, db, log, row, kinds).1
    decreases |kinds|
  {
    if kinds != [] {
      var (db1, log1) := SettleKind(job, db, log, row, kinds[0]);
      KindsKeepLog(job, db1, log1, row, kinds[1..]);
    }
  }

  lemma {:induction false} RowsKeepLog(job: nat, a: World, poll: Poll, rows: seq<ActiveWatch>)
    ensures a.log <= SettleRows(job, a.db, a.log, poll, rows).1
    ensures a.db.claims <= SettleRows(job, a.db, a.log, poll, rows).0.claims
    decreases |rows|
  {
    if rows != [] {
      KindsKeepLog(job, a.db, a.log, rows[0], VerdictFor(poll, rows[0]).kinds);
      KindsClaimOwn(job, a.db, a.log, rows[0], VerdictFor(poll, rows[0]).kinds);
      RowsKeepLog(job, Both(SettleRow(job, a.db, a.log, poll, rows[0])), poll, rows[1..]);
    }
  }

  lemma {:induction false} RowsSettleDue(job: nat, a: World, poll: Poll, rows: seq<ActiveWatch>, i: nat, k: Kind)
    requires DistinctRows(rows) && i < |rows| && IsDue(k, poll.obs, PriorOf(poll, rows[i]))
    requires k != StatusOnsale ==> (rows[i].id, k) !in a.db.claims
    ensures IsSettled(job, rows[i], k, SettleRows(job, a.db, a.log, poll, rows).1)
    ensures k != StatusOnsale ==> (rows[i].id, k) in SettleRows(job, a.db, a.log, poll, rows).0.claims
    decreases |rows|
  {
    var b := Both(SettleRow(job, a.db, a.log, poll, rows[0]));
    var kinds := VerdictFor(poll, rows[0]).kinds;
    if i == 0 {
      VerdictReportsExactlyWhatIsDue(poll.obs, PriorOf(poll, rows[0]));
      KindsSettleDue(job, a.db, a.log, rows[0], kinds, k);
      RowsKeepLog(job, b, poll, rows[1..]);
      StaysSettled(job, rows[0], k, SettleKinds(job, a.db, a.log, rows[0], kinds).1,
                   SettleRows(job, a.db, a.log, poll, rows).1);
    } else {
      KindsClaimOwn(job, a.db, a.log, rows[0], kinds);
      assert rows[1..][i - 1] == rows[i];
      RowsSettleDue(job, b, poll, rows[1..], i - 1, k);
    }
  }

  /**
   The partner of "at most once": a completed poll settles every kind it owes to a
   watch active on the event and has not claimed before, by mail when the owner is
   verified and has not unsubscribed, and by withholding it otherwise. A flip is
   settled whatever the claim table holds.
   */
  lemma EveryDueKindIsSettled(job: nat, w: World, e: int, o: Outcome, x: int, k: Kind)
    requires IsOutcome(w.db, e, o) && IsEvaluatedBy(w, e, x)
    requires IsOwed(k, w.db.events[e], o.raw, o.now, w.db.watches[x])
    requires k != StatusOnsale ==> (x, k) !in w.db.claims
    ensures var after, owner := Happen(w, Polled(job, e, o)), w.db.users[w.db.watches[x].userId];
            && (if owner.verified && !owner.unsubscribed
                then exists row: ActiveWatch :: row.id == x && row.userId == w.db.watches[x].userId && Sent(job, row, k) in after.log
                else Withheld(job, x, k) in after.log)
            && (k != StatusOnsale ==> (x, k) in after.db.claims)
  {
    var stored := World(StoreCalendar(w.db, e, o.raw, o.next), w.log);
    var i := ListedIndex(stored.db, e, o.rows, x);
    OwedIsDue(w.db, e, o, x, k);
    RowsSettleDue(job, stored, PollFor(w.db, e, o), o.rows, i, k);
    assert IsSettled(job, RowFor(w.db, x), k, Happen(w, Polled(job, e, o)).log);
    assert RowFor(w.db, x).id == x && RowFor(w.db, x).userId == w.db.watches[x].userId;
  }

  // ---- nothing else is sent ----

  /** The entry settles a kind for the watch: claims it, mails it or withholds it. */
  predicate IsAbout(e: Entry, x: int, k: Kind) {
    match e
    case Won(_, w, k') => w == x && k' == k
    case Sent(_, row, k') => row.id == x && k' == k
    case Withheld(_, w, k') => w == x && k' == k
    case Abandoned(_, w, k') => w == x && k' == k
    case Evaluated(_, _, _, _) => false
  }

  /** Entries added about the watch and kind were owed and not claimed before. */
  ghost predicate AddsOnly(log: seq<Entry>, log': seq<Entry>, x: int, k: Kind, allowed: bool) {
    log <= log' && forall i :: |log| <= i < |log'| && IsAbout(log'[i], x, k) ==> allowed
  }

  lemma AddsThen(a: seq<Entry>, b: seq<Entry>, c: seq<Entry>, x: int, k: Kind, first: bool, second: bool)
    requires AddsOnly(a, b, x, k, first) && AddsOnly(b, c, x, k, second)
    ensures AddsOnly(a, c, x, k, first || second)
  {
    forall i | |a| <= i < |c| && IsAbout(c[i], x, k) ensures first || second {
      if i < |b| {
        assert c[i] == b[i];
      }
    }
  }

  lemma KindAddsOnly(job: nat, db: Db, log: seq<Entry>, row: ActiveWatch, kind: Kind, x: int, k: Kind)
    ensures AddsOnly(log, SettleKind(job, db, log, row, kind).1, x, k,
                     row.id == x && kind == k && (k == StatusOnsale || (x, k) !in db.claims))
  {
  }

  lemma {:induction false} KindsAddOnly(job: nat, db: Db, log: seq<Entry>, row: ActiveWatch, kinds: seq<Kind>, x: int, k: Kind)
    ensures AddsOnly(log, SettleKinds(job, db, log, row, kinds).1, x, k,
                     row.id == x && k in kinds && (k == StatusOnsale || (x, k) !in db.claims))
    decreases |kinds|
  {
    if kinds != [] {
      var (db1, log1) := SettleKind(job, db, log, row, kinds[0]);
      KindAddsOnly(job, db, log, row, kinds[0], x, k);
      KindsAddOnly(job, db1, log1, row, kinds[1..], x, k);
      AddsThen(log, log1, SettleKinds(job, db1, log1, row, kinds[1..]).1, x, k,
               row.id == x && kinds[0] == k && (k == StatusOnsale || (x, k) !in db.claims),
               row.id == x && k in kinds[1..] && (k == StatusOnsale || (x, k) !in db1.claims));
    }
  }

  /** The rows among which the kind is reported for the watch. */
  ghost predicate IsReportedIn(poll: Poll, rows: seq<ActiveWatch>, x: int, k: Kind) {
    exists r :: r in rows && r.id == x && k in VerdictFor(poll, r).kinds
  }

  lemma {:induction false} RowsAddOnly(job: nat, a: World, poll: Poll, rows: seq<ActiveWatch>, x: int, k: Kind)
    ensures AddsOnly(a.log, SettleRows(job, a.db, a.log, poll, rows).1, x, k,
                     IsReportedIn(poll, rows, x, k) && (k == StatusOnsale || (x, k) !in a.db.claims))
    decreases |rows|
  {
    if rows != [] {
      var kinds := VerdictFor(poll, rows[0]).kinds;
      var mid := SettleKinds(job, a.db, a.log, rows[0], kinds);
      var b := Both(SettleRow(job, a.db, a.log, poll, rows[0]));
      KindsAddOnly(job, a.db, a.log, rows[0], kinds, x, k);
      KindsClaimOwn(job, a.db, a.log, rows[0], kinds);
      assert AddsOnly(mid.1, b.log, x, k, false);
      AddsThen(a.log, mid.1, b.log, x, k, rows[0].id == x && k in kinds && (k == StatusOnsale || (x, k) !in a.db.claims), false);
      RowsAddOnly(job, b, poll, rows[1..], x, k);
      AddsThen(a.log, b.log, SettleRows(job, b.db, b.log, poll, rows[1..]).1, x, k,
               rows[0].id == x && k in kinds && (k == StatusOnsale || (x, k) !in a.db.claims),
               IsReportedIn(poll, rows[1..], x, k) && (k == StatusOnsale || (x, k) !in b.db.claims));
    }
  }

  /**
   And nothing else: whatever a completed poll claims, mails or withholds, it owes to
   that watch, which is active on the event, and had not claimed before.
   */
  lemma OnlyDueKindsAreSettled(job: nat, w: World, e: int, o: Outcome, i: nat, x: int, k: Kind)
    requires IsOutcome(w.db, e, o)
    requires |w.log| <= i < |Happen(w, Polled(job, e, o)).log| && IsAbout(Happen(w, Polled(job, e, o)).log[i], x, k)
    ensures IsEvaluatedBy(w, e, x) && IsOwed(k, w.db.events[e], o.raw, o.now, w.db.watches[x])
    ensures k != StatusOnsale ==> (x, k) !in w.db.claims
  {
    var stored := World(StoreCalendar(w.db, e, o.raw, o.next), w.log);
    RowsAddOnly(job, stored, PollFor(w.db, e, o), o.rows, x, k);
    assert IsReportedIn(PollFor(w.db, e, o), o.rows, x, k);
    var r :| r in o.rows && r.id == x && k in VerdictFor(PollFor(w.db, e, o), r).kinds;
    var n :| 0 <= n < |o.rows| && o.rows[n] == r;
    assert IsActiveOn(stored.db, e, o.rows[n].id) && IsRowOf(stored.db, o.rows[n]);
    assert r == RowFor(w.db, x);
    OwedIsReported(w.db, e, o, x);
  }

  // ---- what is recorded, and when the event is due again ----

  /** A watch the poll evaluates has stored whether the answer was on sale, and an evaluation flips exactly when a flip was owed. */
  lemma PollRecordsTheAnswer(job: nat, w: World, e: int, o: Outcome, x: int)
    requires IsOutcome(w.db, e, o) && IsEvaluatedBy(w, e, x)
    ensures var after := Happen(w, Polled(job, e, o));
            && x in after.db.watches
            && after.db.watches[x].lastEvaluation == (Normalise(o.raw).availability == "onsale")
            && EvalsOf(after.log, x) == EvalsOf(w.log, x)
                 + [Eval(Normalise(o.raw).availability == "onsale", IsOwed(StatusOnsale, w.db.events[e], o.raw, o.now, w.db.watches[x]))]
  {
    PollOnWatch(job, w, e, o, x);
    OwedIsReported(w.db, e, o, x);
    VerdictReportsExactlyWhatIsDue(PollFor(w.db, e, o).obs, PriorOf(PollFor(w.db, e, o), RowFor(w.db, x)));
  }

  /**
   The row of a polled event holds the calendar of the answer and the time chosen for
   the next poll, its date untouched, and from that time on and not before it is due
   to be polled again, as long as a watch is active on it. No other row changes.
   */
  lemma PollSchedulesTheNext(job: nat, w: World, e: int, o: Outcome, now: Time)
    requires IsOutcome(w.db, e, o)
    ensures var after, s := Happen(w, Polled(job, e, o)).db, Normalise(o.raw);
            && after.events.Keys == w.db.events.Keys
            && (forall f :: f in w.db.events && f != e ==> after.events[f] == w.db.events[f])
            && after.events[e].nextPollAt == o.next && after.events[e].polled
            && after.events[e].lastAvailability == Some(s.availability) && after.events[e].eventDate == w.db.events[e].eventDate
            && (IsDueEvent(after, e, now) <==> o.next <= now && !NoActiveWatch(after, e))
  {
    RowsShape(job, World(StoreCalendar(w.db, e, o.raw, o.next), w.log), PollFor(w.db, e, o), o.rows);
  }
}
