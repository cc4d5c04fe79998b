/**
 The worker's two methods, written as the source writes them: calls on a store
 that may fail, a loop over watches and a loop over kinds. Each call is recorded
 as a ghost step, which ties the method to the step semantics of AlertEngine.
 */
module Worker {
  import opened Basics
  import opened Ticketmaster
  import opened Evaluator
  import opened AlertStore
  import opened AlertEngine

  datatype Alert = Alert(watchId: int, userId: int, kind: Kind)

  class Notifier {
    var outbox: seq<Alert>

    constructor ()
      ensures outbox == []
    {
      outbox := [];
    }

    /** Delivery failures are logged and never returned. */
    method Notify(a: Alert)
      modifies this
      ensures outbox == old(outbox) + [a]
    {
      outbox := outbox + [a];
    }
  }

  function AlertOf(e: Entry): seq<Alert> {
    if e.Sent? then [Alert(e.row.id, e.row.userId, e.kind)] else []
  }

  /** The alerts a stretch of the log handed to the notifier. */
  function Mail(log: seq<Entry>): seq<Alert> {
    if log == [] then [] else Mail(log[..|log| - 1]) + AlertOf(log[|log| - 1])
  }

  lemma MailAppended(log: seq<Entry>, e: Entry)
    ensures Mail(log + [e]) == Mail(log) + AlertOf(e)
  {
    assert (log + [e])[..|log|] == log;
  }

  /** The shortest wait, in seconds, that an active watch asks for; 300 when none asks. */
  ghost predicate IsLeastWait(db: Db, eventId: int, wait: int) {
    && (forall w :: IsActiveOn(db, eventId, w) ==> wait <= db.watches[w].pollInterval)
    && (if exists w :: IsActiveOn(db, eventId, w)
        then exists w :: IsActiveOn(db, eventId, w) && db.watches[w].pollInterval == wait
        else wait == 300)
  }

  /**
   The next poll comes when the shortest wait asked for has passed, or after five
   minutes; the latter only if the store failed or something else than a positive
   number of seconds was asked for.
   */
  ghost predicate IsNextPoll(db: Db, eventId: int, pollClock: Time, reliable: bool, next: Time) {
    || (exists wait :: wait > 0 && IsLeastWait(db, eventId, wait) && next == pollClock + wait * 1_000_000_000)
    || (next == pollClock + 300 * 1_000_000_000
        && (reliable ==> exists w :: IsActiveOn(db, eventId, w) && db.watches[w].pollInterval <= 0))
  }

  lemma WaitsOfSameWatches(a: Db, b: Db, eventId: int, pollClock: Time, reliable: bool, next: Time)
    requires a.watches == b.watches && IsNextPoll(a, eventId, pollClock, reliable, next)
    ensures IsNextPoll(b, eventId, pollClock, reliable, next)
  {
    forall w ensures IsActiveOn(a, eventId, w) <==> IsActiveOn(b, eventId, w) {
    }
    if wait :| wait > 0 && IsLeastWait(a, eventId, wait) && next == pollClock + wait * 1_000_000_000 {
      assert IsLeastWait(b, eventId, wait);
    }
  }

  lemma LeastIsNext(db: Db, eventId: int, pollClock: Time, reliable: bool, least: int)
    requires IsMinInterval(db, eventId, least)
    ensures IsNextPoll(db, eventId, pollClock, reliable, pollClock + Seconds(if least > 0 then least else 300))
  {
    if least > 0 {
      assert IsLeastWait(db, eventId, least);
    } else {
      var w :| IsActiveOn(db, eventId, w) && db.watches[w].pollInterval == least;
      assert db.watches[w].pollInterval <= 0;
    }
  }

  class Worker {
    const job: nat
    const store: Store
    const notifier: Notifier
    ghost var log: seq<Entry>

    constructor (job: nat, store: Store, notifier: Notifier)
      requires notifier.outbox == []
      ensures this.job == job && this.store == store && this.notifier == notifier
      ensures log == [] && InStep()
    {
      this.job, this.store, this.notifier := job, store, notifier;
      log := [];
    }

    /** Exactly the alerts in the log have been mailed, in that order. */
    ghost predicate InStep()
      reads this, notifier
    {
      notifier.outbox == Mail(log)
    }

    /** The job as it would stand at pc, with the tables and the log as they are now. */
    ghost function Here(pc: Pc): Local
      reads this, store
    {
      Local(store.Tables(), log, pc)
    }

    /** The job that began at `start` has made exactly the calls in `steps` and stands at pc. */
    ghost predicate At(start: Local, steps: seq<Step>, pc: Pc)
      reads this, store
    {
      JobRun(job, start, steps) == Some(Here(pc))
    }

    /** The call just made took the job from `before` to where it is now. */
    ghost method Took(start: Local, steps: seq<Step>, before: Local, at: Time, r: Reply, pc: Pc) returns (more: seq<Step>)
      requires JobRun(job, start, steps) == Some(before) && CanAnswer(before, r)
      requires Advance(job, before, at, r) == Here(pc)
      ensures At(start, more, pc)
    {
      more := steps + [Step(at, r)];
      JobRunExtend(job, start, steps, before, Step(at, r));
    }

    /**
     One poll of one event. `wire` is Ticketmaster's answer, or None when the call
     failed; the two clock readings are the ones taken for next_poll_at and for
     the observation.
     */
    method ProcessEvent(eventId: int, wire: Option<RawEvent>, pollClock: Time, observeClock: Time)
      returns (ok: bool, ghost steps: seq<Step>)
      requires InStep()
      modifies this, store, notifier
      ensures InStep()
      ensures At(Local(old(store.Tables()), old(log), Get(eventId)), steps, Done(ok))
      ensures ok ==> EndsAs(job, old(store.Tables()), old(log), eventId, (store.Tables(), log))
      ensures ok ==> eventId in store.events
      ensures ok ==> IsNextPoll(old(store.Tables()), eventId, pollClock, store.reliable, store.events[eventId].nextPollAt)
      ensures store.reliable && wire.Some? && eventId in old(store.events) ==> ok
    {
      ghost var start := Here(Get(eventId));
      var ev, snap, next;
      ev, snap, ok, steps := Observe(eventId, wire, start);
      if !ok {
        return false, steps;
      }
      ghost var db := store.Tables();
      next, steps := ChooseNext(eventId, pollClock, ev, wire.value, start, steps);
      WaitsOfSameWatches(db, start.db, eventId, pollClock, store.reliable, next);
      ok, steps := Reschedule(eventId, ev, snap, next, wire.value, observeClock, start, steps);
      if !ok {
        return false, steps;
      }
      var knewPublicStart := ev.publicStart.Some?;
      var poll := Poll(eventId, ObservationOf(ev, snap, observeClock), knewPublicStart);
      ok, steps := EvaluateWatches(poll, start, steps);
      if ok {
        UndisturbedJobCompletesPoll(job, start.db, start.log, eventId, steps, Here(Done(true)));
      }
    }

    /** The first part of a poll: read the row, fetch the event, record a changed availability. */
    method Observe(eventId: int, wire: Option<RawEvent>, ghost start: Local)
      returns (row: EventRow, snap: Snapshot, ok: bool, ghost steps: seq<Step>)
      requires start == Here(Get(eventId))
      modifies store
      ensures ok ==> wire.Some? && snap == Normalise(wire.value) && At(start, steps, Interval(eventId, row, wire.value))
      ensures !ok ==> At(start, steps, Done(false))
      ensures store.watches == old(store.watches) && store.events == old(store.events) && (ok ==> eventId in store.events)
      ensures store.reliable && wire.Some? && eventId in old(store.events) ==> ok
    {
      row := EventRow("", None, None, None, None, None, None, 0, false, false, 0);
      snap := Snapshot("", "", None, None, None, false, None, 0);
      steps := [];
      var ev := store.GetEvent(eventId);
      if ev.None? {
        steps := Took(start, steps, start, 0, Error, Done(false));
        return row, snap, false, steps;
      }
      row := ev.value;
      steps := Took(start, steps, start, 0, Ok, Fetch(eventId, row));
      if wire.None? {
        steps := Took(start, steps, Here(Fetch(eventId, row)), 0, Error, Done(false));
        return row, snap, false, steps;
      }
      snap := ToSnapshot(wire.value);
      if !Changed(row, snap.availability) {
        steps := Took(start, steps, Here(Fetch(eventId, row)), 0, Wire(wire.value), Interval(eventId, row, wire.value));
        return row, snap, true, steps;
      }
      steps := Took(start, steps, Here(Fetch(eventId, row)), 0, Wire(wire.value), Insert(eventId, row, wire.value));
      ghost var before := Here(Insert(eventId, row, wire.value));
      ok := store.InsertAvailabilitySnapshot(eventId, snap.availability);
      steps := Took(start, steps, before, 0, if ok then Ok else Error,
                    if ok then Interval(eventId, row, wire.value) else Done(false));
    }


    /** When to poll next: the least interval a watch asked for, or the default. */
    method ChooseNext(eventId: int, pollClock: Time, ghost ev: EventRow, ghost raw: RawEvent,
                      ghost start: Local, ghost steps0: seq<Step>)
      returns (next: Time, ghost steps: seq<Step>)
      requires At(start, steps0, Interval(eventId, ev, raw))
      ensures At(start, steps, Update(eventId, ev, raw, next))
      ensures IsNextPoll(store.Tables(), eventId, pollClock, store.reliable, next)
    {
      var least := store.MinPollIntervalForEvent(eventId);
      var interval := if least.None? || least.value <= 0 then DEFAULT_INTERVAL else least.value;
      next := pollClock + Seconds(interval);
      if least.Some? {
        LeastIsNext(store.Tables(), eventId, pollClock, store.reliable, least.value);
      }
      steps := Took(start, steps0, Here(Interval(eventId, ev, raw)), pollClock,
                    if least.None? then Error else Least(least.value), Update(eventId, ev, raw, next));
    }

    /** The second part: store the new calendar together with the next poll time. */
    method Reschedule(eventId: int, ghost ev: EventRow, snap: Snapshot, next: Time, ghost raw: RawEvent,
                      ghost observeClock: Time, ghost start: Local, ghost steps0: seq<Step>)
      returns (ok: bool, ghost steps: seq<Step>)
      requires snap == Normalise(raw) && At(start, steps0, Update(eventId, ev, raw, next))
      modifies store
      ensures At(start, steps, if ok then List(PollOf(eventId, ev, raw, observeClock)) else Done(false))
      ensures store.reliable ==> ok
      ensures store.watches == old(store.watches) && (ok && eventId in store.events ==> store.events[eventId].nextPollAt == next)
      ensures store.events.Keys == old(store.events.Keys)
    {
      ghost var before := Here(Update(eventId, ev, raw, next));
      ok := store.UpdateLatest(eventId, snap, next);
      steps := Took(start, steps0, before, observeClock, if ok then Ok else Error,
                    if ok then List(PollOf(eventId, ev, raw, observeClock)) else Done(false));
    }

    method EvaluateWatches(poll: Poll, ghost start: Local, ghost steps0: seq<Step>)
      returns (ok: bool, ghost steps: seq<Step>)
      requires InStep() && At(start, steps0, List(poll))
      modifies this, store, notifier
      ensures InStep() && At(start, steps, Done(ok)) && store.events == old(store.events)
      ensures store.reliable ==> ok
    {
      var listed := store.ListActiveWatchesForEvent(poll.eventId);
      if listed.None? {
        steps := Took(start, steps0, Here(List(poll)), 0, Error, Done(false));
        return false, steps;
      }
      var watches := listed.value;
      steps := Took(start, steps0, Here(List(poll)), 0, Rows(watches), NextRow(poll, watches, false));
      assert watches[0..] == watches;
      var closeEvent := false;
      for i := 0 to |watches|
        invariant InStep() && At(start, steps, NextRow(poll, watches[i..], closeEvent)) && store.events == old(store.events)
        invariant forall j :: 0 <= j < |watches| ==> watches[j].id in store.watches
      {
        assert watches[i..][0] == watches[i] && watches[i..][1..] == watches[i + 1..];
        var w := watches[i];
        var res := Evaluate(poll.obs, Prior(poll.knewPublicStart, w.lastEvaluation, Some(w.createdAt)));
        if res.closeWatch {
          closeEvent := true;
        }
        ok, steps := SettleVerdict(poll, w, res, watches[i + 1..], closeEvent, start, steps);
        if ok {
          ok, steps := RecordVerdict(poll, w, res, watches[i + 1..], closeEvent, start, steps);
        }
        if !ok {
          return false, steps;
        }
      }
      assert watches[|watches|..] == [];
      if closeEvent {
        ghost var before := Here(Close(poll));
        ok := store.CloseWatchesForEvent(poll.eventId);
        steps := Took(start, steps, before, 0, if ok then Ok else Error, Done(ok));
        return ok, steps;
      }
      return true, steps;
    }

    /** After a watch's kinds: remember the signal for the next poll's edge detection. */
    method RecordVerdict(poll: Poll, w: ActiveWatch, res: Verdict, ghost rest: seq<ActiveWatch>, ghost closing: bool,
                         ghost start: Local, ghost steps0: seq<Step>)
      returns (ok: bool, ghost steps: seq<Step>)
      requires res == VerdictFor(poll, w)
      requires InStep() && At(start, steps0, Record(poll, w, rest, closing))
      modifies this, store
      ensures InStep() && At(start, steps, if ok then NextRow(poll, rest, closing) else Done(false))
      ensures store.watches.Keys == old(store.watches.Keys) && store.events == old(store.events) && (store.reliable ==> ok)
    {
      ghost var before := Here(Record(poll, w, rest, closing));
      ok := store.RecordEvaluation(w.id, res.statusOnsale);
      if ok {
        Note(Evaluated(job, w.id, res.statusOnsale, StatusOnsale in res.kinds));
      }
      steps := Took(start, steps0, before, 0, if ok then Ok else Error,
                    if ok then NextRow(poll, rest, closing) else Done(false));
    }

    /** The inner loop: claim, check consent, notify, one kind after another. */
    method SettleVerdict(poll: Poll, w: ActiveWatch, res: Verdict, ghost rest: seq<ActiveWatch>, ghost closing: bool,
                         ghost start: Local, ghost steps0: seq<Step>)
      returns (ok: bool, ghost steps: seq<Step>)
      requires InStep() && At(start, steps0, NextKind(poll, w, res.kinds, rest, closing))
      modifies this, store, notifier
      ensures InStep() && At(start, steps, if ok then Record(poll, w, rest, closing) else Done(false))
      ensures store.watches.Keys == old(store.watches.Keys) && store.events == old(store.events)
      ensures store.reliable && w.id in store.watches ==> ok
    {
      steps := steps0;
      var kinds := res.kinds;
      assert kinds[0..] == kinds;
      for n := 0 to |kinds|
        invariant InStep() && At(start, steps, NextKind(poll, w, kinds[n..], rest, closing))
        invariant store.watches.Keys == old(store.watches.Keys) && store.events == old(store.events)
      {
        var kind := kinds[n];
        ghost var later := kinds[n + 1..];
        assert kinds[n..][0] == kind && kinds[n..][1..] == later;
        if NeedsClaim(kind) {
          var claimed;
          claimed, steps := TryClaim(poll, w, kind, later, rest, closing, start, steps);
          if claimed.None? {
            return false, steps;
          }
          if claimed.value == 0 {
            continue;
          }
        }
        ok, steps := MailOrWithhold(poll, w, kind, later, rest, closing, start, steps);
        if !ok {
          return false, steps;
        }
      }
      assert kinds[|kinds|..] == [];
      return true, steps;
    }

    /** The insert into watch_alerts: 1 when this job won the pair, 0 when it was taken. */
    method TryClaim(poll: Poll, w: ActiveWatch, kind: Kind, ghost later: seq<Kind>, ghost rest: seq<ActiveWatch>,
                    ghost closing: bool, ghost start: Local, ghost steps0: seq<Step>)
      returns (claimed: Option<nat>, ghost steps: seq<Step>)
      requires InStep() && At(start, steps0, Claim(poll, w, kind, later, rest, closing))
      modifies this, store
      ensures InStep() && store.watches.Keys == old(store.watches.Keys) && store.events == old(store.events)
      ensures store.reliable && w.id in store.watches ==> claimed.Some?
      ensures claimed.None? ==> At(start, steps, Done(false))
      ensures claimed == Some(0) ==> At(start, steps, NextKind(poll, w, later, rest, closing))
      ensures claimed.Some? && claimed.value != 0 ==> At(start, steps, Deliver(poll, w, kind, later, rest, closing))
    {
      ghost var before := Here(Claim(poll, w, kind, later, rest, closing));
      claimed := store.ClaimWatchAlert(w.id, kind);
      if claimed.None? {
        steps := Took(start, steps0, before, 0, Error, Done(false));
      } else if claimed.value == 0 {
        assert store.Tables().claims == before.db.claims;
        steps := Took(start, steps0, before, 0, Ok, NextKind(poll, w, later, rest, closing));
      } else {
        Note(Won(job, w.id, kind));
        steps := Took(start, steps0, before, 0, Ok, Deliver(poll, w, kind, later, rest, closing));
      }
    }

    /** The consent gates, checked after the claim, and the alert itself. */
    method MailOrWithhold(poll: Poll, w: ActiveWatch, kind: Kind, ghost later: seq<Kind>, ghost rest: seq<ActiveWatch>,
                          ghost closing: bool, ghost start: Local, ghost steps0: seq<Step>)
      returns (ok: bool, ghost steps: seq<Step>)
      requires InStep() && At(start, steps0, Deliver(poll, w, kind, later, rest, closing))
      modifies this, store, notifier
      ensures InStep() && At(start, steps, if ok then NextKind(poll, w, later, rest, closing) else Done(false))
      ensures notifier.outbox == old(notifier.outbox) + if w.verified && !w.unsubscribed then [Alert(w.id, w.userId, kind)] else []
      ensures store.watches.Keys == old(store.watches.Keys) && store.events == old(store.events) && (store.reliable ==> ok)
    {
      ghost var before := Here(Deliver(poll, w, kind, later, rest, closing));
      if !w.verified || w.unsubscribed {
        Note(Withheld(job, w.id, kind));
        steps := Took(start, steps0, before, 0, Ok, NextKind(poll, w, later, rest, closing));
        return true, steps;
      }
      notifier.Notify(Alert(w.id, w.userId, kind));
      MailAppended(log, Sent(job, w, kind));
      log := log + [Sent(job, w, kind)];
      steps := Took(start, steps0, before, 0, Ok, Mark(poll, w, later, rest, closing));
      ok, steps := StampNotified(poll, w, later, rest, closing, start, steps);
    }

    method StampNotified(ghost poll: Poll, w: ActiveWatch, ghost later: seq<Kind>, ghost rest: seq<ActiveWatch>,
                         ghost closing: bool, ghost start: Local, ghost steps0: seq<Step>)
      returns (ok: bool, ghost steps: seq<Step>)
      requires At(start, steps0, Mark(poll, w, later, rest, closing))
      modifies store
      ensures At(start, steps, if ok then NextKind(poll, w, later, rest, closing) else Done(false))
      ensures store.watches.Keys == old(store.watches.Keys) && store.events == old(store.events) && (store.reliable ==> ok)
    {
      ghost var before := Here(Mark(poll, w, later, rest, closing));
      ok := store.RecordNotified(w.id);
      if ok {
        steps := Took(start, steps0, before, 0, Ok, NextKind(poll, w, later, rest, closing));
      } else {
        steps := Took(start, steps0, before, 0, Error, Done(false));
      }
    }

    /** A log entry that mails nothing. */
    ghost method Note(e: Entry)
      requires InStep() && !e.Sent?
      modifies this
      ensures log == old(log) + [e] && InStep()
    {
      MailAppended(log, e);
      log := log + [e];
    }
  }
}
