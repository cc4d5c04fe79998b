/**
 What can be found in an event row, at any moment of any interleaved run: what was
 there at the start, or the calendar of a wire event that arrived during the run.
 */
module StoredCalendars {
  import opened Basics
  import opened Ticketmaster
  import opened AlertStore
  import opened AlertEngine
  import opened ClaimLedger

  /** The wire event that arrives with a step, if one does. */
  function WireOf(l: Label): Option<RawEvent> {
    if l.Move? && l.reply.Wire? then Some(l.reply.raw)
    else if l.UserDoes? && l.act.ActUpsertEvent? then Some(l.act.raw)
    else None
  }

  ghost predicate Arrived(ls: seq<Label>, raw: RawEvent) {
    exists i :: 0 <= i < |ls| && WireOf(ls[i]) == Some(raw)
  }

  predicate IsCalendarOf(row: EventRow, raw: RawEvent) {
    row == WithCalendar(row, Normalise(raw))
  }

  /** Only the time of the next poll may differ. */
  predicate SameCalendar(row: EventRow, first: EventRow) {
    row == first.(nextPollAt := row.nextPollAt)
  }

  /** The row still has the calendar it had at the start, or has that of a wire event of the run. */
  ghost predicate IsSourced(s: System, ls: seq<Label>, e: int, row: EventRow) {
    || (e in s.db.events && SameCalendar(row, s.db.events[e]))
    || exists raw :: Arrived(ls, raw) && IsCalendarOf(row, raw)
  }

  predicate Carries(pc: Pc, raw: RawEvent) {
    match pc
    case Insert(_, _, r) => r == raw
    case Interval(_, _, r) => r == raw
    case Update(_, _, r, _) => r == raw
    case _ => false
  }

  ghost predicate AllSourced(s: System, ls: seq<Label>) {
    && (forall e :: e in Run(s, ls).db.events ==> IsSourced(s, ls, e, Run(s, ls).db.events[e]))
    && (forall j, raw :: j in Run(s, ls).jobs && Carries(Run(s, ls).jobs[j], raw) ==> Arrived(ls, raw))
  }

  lemma ArrivedStays(ls: seq<Label>, l: Label, raw: RawEvent)
    requires Arrived(ls, raw) || WireOf(l) == Some(raw)
    ensures Arrived(ls + [l], raw)
  {
    if Arrived(ls, raw) {
      var i :| 0 <= i < |ls| && WireOf(ls[i]) == Some(raw);
      assert WireOf((ls + [l])[i]) == Some(raw);
    } else {
      assert WireOf((ls + [l])[|ls|]) == Some(raw);
    }
  }

  lemma SourcedStays(s: System, ls: seq<Label>, l: Label, e: int, row: EventRow, row': EventRow)
    requires IsSourced(s, ls, e, row) && SameCalendar(row', row)
    ensures IsSourced(s, ls + [l], e, row')
  {
    if raw :| Arrived(ls, raw) && IsCalendarOf(row, raw) {
      ArrivedStays(ls, l, raw);
      assert IsCalendarOf(row', raw);
    }
  }

  /** A job carries what it fetched. */
  lemma MoveCarries(job: nat, l: Local, at: Time, r: Reply)
    ensures forall raw :: Carries(Advance(job, l, at, r).pc, raw) ==> Carries(l.pc, raw) || r == Wire(raw)
  {
  }

  /** An upsert leaves a row alone or gives it the fetched calendar. */
  lemma UpsertSources(db: Db, raw: RawEvent, at: Time, e: int)
    requires e in Perform(db, ActUpsertEvent(raw, at)).events
    ensures var row := Perform(db, ActUpsertEvent(raw, at)).events[e];
            (e in db.events && row == db.events[e]) || IsCalendarOf(row, raw)
  {
    var s := Normalise(raw);
    if e in db.events && db.events[e].tmId == s.tmId {
      assert Perform(db, ActUpsertEvent(raw, at)).events[e] == WithCalendar(db.events[e], s).(eventDate := s.eventDate);
    }
  }

  lemma UserSources(db: Db, a: Act)
    ensures forall e :: e in Perform(db, a).events ==>
              || (e in db.events && SameCalendar(Perform(db, a).events[e], db.events[e]))
              || (a.ActUpsertEvent? && IsCalendarOf(Perform(db, a).events[e], a.raw))
  {
    match a
    case ActUpsertEvent(raw, at) =>
      forall e | e in Perform(db, a).events
        ensures (e in db.events && Perform(db, a).events[e] == db.events[e]) || IsCalendarOf(Perform(db, a).events[e], raw)
      {
        UpsertSources(db, raw, at, e);
      }
    case ActMarkDue(e, at) =>
    case _ => assert Perform(db, a).events == db.events;
  }

  lemma StepSources(s: System, ls: seq<Label>, l: Label)
    requires AllSourced(s, ls) && CanDo(Run(s, ls), l)
    ensures AllSourced(s, ls + [l])
  {
    var before, more := Run(s, ls), ls + [l];
    assert more[..|ls|] == ls;
    var after := Do(before, l);
    if l.Move? {
      MoveCarries(l.job, Local(before.db, before.log, before.jobs[l.job]), l.at, l.reply);
    } else if l.UserDoes? {
      UserSources(before.db, l.act);
    }
    forall j, raw | j in after.jobs && Carries(after.jobs[j], raw) ensures Arrived(more, raw) {
      ArrivedStays(ls, l, raw);
    }
    forall e | e in after.db.events ensures IsSourced(s, more, e, after.db.events[e]) {
      if e in before.db.events && SameCalendar(after.db.events[e], before.db.events[e]) {
        SourcedStays(s, ls, l, e, before.db.events[e], after.db.events[e]);
      } else {
        var raw := if l.Move? then before.jobs[l.job].raw else l.act.raw;
        ArrivedStays(ls, l, raw);
        assert IsCalendarOf(after.db.events[e], raw);
      }
    }
  }

  lemma {:induction false} RowsAreSourced(s: System, ls: seq<Label>)
    requires Fresh(s) && IsRun(s, ls)
    ensures AllSourced(s, ls)
  {
    if ls != [] {
      var n := |ls| - 1;
      IsRunPrefix(s, ls, n);
      RowsAreSourced(s, ls[..n]);
      StepSources(s, ls[..n], ls[n]);
      assert ls == ls[..n] + [ls[n]];
    }
  }

  /** A row described from the wire event whose calendar it holds. */
  ghost predicate IsSoundRow(row: EventRow, raw: RawEvent) {
    && (row.onsaleTbd <==> IsSentinel(raw.publicStart) || raw.startTbd || raw.startTba)
    && (row.onsaleTbd ==> row.publicStart.None?)
    && (forall t :: row.publicStart == Some(t) <==>
          !row.onsaleTbd && IsUsable(raw.publicStart) && raw.publicStart.instant == t)
    && (forall t :: row.publicEnd == Some(t) <==> IsUsable(raw.publicEnd) && raw.publicEnd.instant == t)
    && (exists w :: IsEarliest(raw.presales, w) && HoldsPresale(row, w))
    && row.presaleCount == |raw.presales|
    && IsBelowLimit(row.publicStart) && IsBelowLimit(row.publicEnd) && IsBelowLimit(row.presale)
  }

  predicate HoldsPresale(row: EventRow, w: Option<Window>) {
    && row.presale == (if w.Some? then Some(w.value.start) else None)
    && row.presaleName == (if w.Some? then StrPtr(w.value.name) else None)
  }

  lemma CalendarIsSound(row: EventRow, raw: RawEvent)
    requires IsCalendarOf(row, raw)
    ensures IsSoundRow(row, raw)
  {
    NormaliseDescribes(raw);
    LeaksStayWithinADay(raw);
    var s := Normalise(raw);
    assert IsEarliest(raw.presales, s.presale) && HoldsPresale(row, s.presale);
  }

  /**
   Whichever jobs, failures and user actions a run consists of, every row either
   has the calendar it started with or holds exactly what a wire event of that very
   run says, with the sentinel kept out.
   */
  lemma SentinelNeverStored(s: System, ls: seq<Label>, e: int)
    requires Fresh(s) && IsRun(s, ls) && e in Run(s, ls).db.events
    ensures var row := Run(s, ls).db.events[e];
            || (e in s.db.events && SameCalendar(row, s.db.events[e]))
            || exists raw :: Arrived(ls, raw) && IsSoundRow(row, raw)
  {
    RowsAreSourced(s, ls);
    var row := Run(s, ls).db.events[e];
    assert IsSourced(s, ls, e, row);
    if raw :| Arrived(ls, raw) && IsCalendarOf(row, raw) {
      CalendarIsSound(row, raw);
    }
  }

  /** Over tables that began empty, no stored time lies beyond the first day of the sentinel year, and none of an unannounced sale is stored. */
  lemma NoTimeBeyondTheSentinel(s: System, ls: seq<Label>)
    requires Fresh(s) && s.db.events == map[] && IsRun(s, ls)
    ensures forall e :: e in Run(s, ls).db.events ==>
              var row := Run(s, ls).db.events[e];
              && (row.onsaleTbd ==> row.publicStart.None?)
              && IsBelowLimit(row.publicStart) && IsBelowLimit(row.publicEnd) && IsBelowLimit(row.presale)
  {
    forall e | e in Run(s, ls).db.events
      ensures var row := Run(s, ls).db.events[e];
              && (row.onsaleTbd ==> row.publicStart.None?)
              && IsBelowLimit(row.publicStart) && IsBelowLimit(row.publicEnd) && IsBelowLimit(row.presale)
    {
      SentinelNeverStored(s, ls, e);
    }
  }
}
