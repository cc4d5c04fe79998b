/**
 Creating, pausing and resuming watches (internal/service/watch.go). Both methods
 end in statements of AlertStore, so the theorems about runs cover them.
 */
module WatchService {
  import opened Basics
  import opened Ticketmaster
  import opened Evaluator
  import opened AlertStore
  import opened AlertEngine
  import opened SerialPolls
  import opened WatchSignal
  import opened SaleLabel
  import opened DueAlerts

  datatype Error =
    | MissingEventId | InvalidCondition | WatchLimitReached | FetchFailed | InvalidStatus | WatchNotFound | StoreFailed

  datatype Result<+T> = Success(value: T) | Failure(error: Error)

  function PerformAll(db: Db, acts: seq<Act>): Db {
    if acts == [] then db else Perform(PerformAll(db, acts[..|acts| - 1]), acts[|acts| - 1])
  }

  lemma PerformOne(db: Db, acts: seq<Act>, a: Act)
    ensures PerformAll(db, acts + [a]) == Perform(PerformAll(db, acts), a)
  {
    assert (acts + [a])[..|acts|] == acts;
  }

  function WatchesOf(db: Db, userId: int): set<int> {
    set w | w in db.watches && db.watches[w].userId == userId
  }

  /** Whether the stored row says the event is on sale right now. */
  predicate IsOnSaleNow(row: EventRow) {
    Str(row.lastAvailability) == "onsale"
  }

  /** The new watch: active, on the given event, its signal seeded from the stored row. */
  ghost predicate IsSeededWatch(db: Db, w: int, userId: int, e: int, interval: int, now: Time) {
    && w in db.watches && e in db.events
    && db.watches[w] == WatchRow(userId, e, Active, db.events[e].lastAvailability == Some("onsale"),
                                 false, if interval <= 0 then 300 else interval, now)
  }

  ghost predicate IsKnown(db: Db, tmId: string) {
    exists e :: e in db.events && db.events[e].tmId == tmId
  }

  /** The event a request resolves to: the one asked for if it is known, and otherwise the one fetched. */
  ghost predicate IsRequested(before: Db, after: Db, tmId: string, wire: Option<RawEvent>, e: int) {
    && e in after.events
    && (IsKnown(before, tmId) ==> e in before.events && after.events[e].tmId == tmId)
    && (!IsKnown(before, tmId) ==> wire.Some? && after.events[e].tmId == wire.value.tmId)
  }

  /**
   Validate, check the allowance, resolve the event, insert the seeded watch, make
   the event due. Everything done to the tables is listed in `acts`.
   */
  method Create(store: Store, userId: int, tmId: string, condition: string, interval: int, maxPerUser: int,
                wire: Option<RawEvent>, now: Time)
    returns (r: Result<int>, ghost acts: seq<Act>)
    requires Consistent(store.Tables())
    modifies store
    ensures Consistent(store.Tables()) && store.Tables() == PerformAll(old(store.Tables()), acts)
    ensures tmId == "" ==> r == Failure(MissingEventId)
    ensures tmId != "" && condition != "becomes_available" ==> r == Failure(InvalidCondition)
    ensures r.Failure? && r.error != StoreFailed ==> acts == []
    ensures store.reliable && r.Failure? ==> r.error != StoreFailed || userId !in old(store.users)
    ensures r == Failure(FetchFailed) ==> wire.None? && !IsKnown(old(store.Tables()), tmId)
    ensures var own := set w | w in old(store.watches) && old(store.watches)[w].userId == userId;
            && (r == Failure(WatchLimitReached) ==> 0 < maxPerUser <= |own|)
            && (r.Success? && maxPerUser > 0 ==> |own| < maxPerUser)
    ensures IsKnown(old(store.Tables()), tmId) ==> forall a :: a in acts ==> !a.ActUpsertEvent?
    ensures forall a :: a in acts && a.ActUpsertEvent? ==> wire == Some(a.raw)
    ensures r.Success? ==>
              && r.value == old(store.nextWatchId) && r.value in store.watches
              && var e := store.watches[r.value].eventId;
                 && IsSeededWatch(store.Tables(), r.value, userId, e, interval, now)
                 && IsRequested(old(store.Tables()), store.Tables(), tmId, wire, e)
                 && (store.reliable ==> e in store.events && store.events[e].nextPollAt == now && IsDueEvent(store.Tables(), e, now))
  {
    acts := [];
    if tmId == "" {
      return Failure(MissingEventId), acts;
    }
    if condition != "becomes_available" {
      return Failure(InvalidCondition), acts;
    }
    var refused := CheckAllowance(store, userId, maxPerUser);
    if refused.Some? {
      return Failure(refused.value), acts;
    }
    var e;
    e, acts := ResolveEvent(store, tmId, wire, now);
    if e.Failure? {
      return Failure(e.error), acts;
    }
    r, acts := Subscribe(store, userId, e.value, interval, now, old(store.Tables()), acts);
    assert r.Success? ==> IsActiveOn(store.Tables(), e.value, r.value);
  }

  method CheckAllowance(store: Store, userId: int, maxPerUser: int) returns (refused: Option<Error>)
    ensures refused.Some? ==> refused.value in {WatchLimitReached, StoreFailed}
    ensures var own := set w | w in store.watches && store.watches[w].userId == userId;
            && (refused == Some(WatchLimitReached) ==> 0 < maxPerUser <= |own|)
            && (refused == None && maxPerUser > 0 ==> |own| < maxPerUser)
    ensures store.reliable || maxPerUser <= 0 ==> refused != Some(StoreFailed)
  {
    if maxPerUser <= 0 {
      return None;
    }
    var counted := store.Reach();
    if !counted {
      return Some(StoreFailed);
    }
    if |WatchesOf(store.Tables(), userId)| >= maxPerUser {
      return Some(WatchLimitReached);
    }
    return None;
  }

  /** The watch row, refused by its foreign key for a missing user, and then a poll as soon as possible. */
  method Subscribe(store: Store, userId: int, e: int, interval: int, now: Time, ghost origin: Db, ghost before: seq<Act>)
    returns (r: Result<int>, ghost acts: seq<Act>)
    requires Consistent(store.Tables()) && e in store.events && store.Tables() == PerformAll(origin, before)
    modifies store
    ensures Consistent(store.Tables()) && store.Tables() == PerformAll(origin, acts)
    ensures before <= acts && forall a :: a in acts && a.ActUpsertEvent? ==> a in before
    ensures r.Failure? ==> r.error == StoreFailed && acts == before && (store.reliable ==> userId !in old(store.users))
    ensures r.Success? ==>
              r.value == old(store.nextWatchId) && IsSeededWatch(store.Tables(), r.value, userId, e, interval, now)
    ensures store.events.Keys == old(store.events).Keys
    ensures forall f :: f in store.events ==> store.events[f].tmId == old(store.events)[f].tmId
    ensures r.Success? && store.reliable ==> e in store.events && store.events[e].nextPollAt == now
  {
    acts := before;
    var inserted := store.Reach();
    if userId !in store.users || !inserted {
      return Failure(StoreFailed), acts;
    }
    var id := store.nextWatchId;
    acts := InsertSeeded(store, userId, e, if interval <= 0 then DEFAULT_INTERVAL else interval, now, origin, acts);
    acts := MakeDue(store, e, now, origin, acts);
    return Success(id), acts;
  }

  lemma UpsertStoresEvent(db: Db, raw: RawEvent, now: Time)
    ensures var after := Perform(db, ActUpsertEvent(raw, now));
            exists e :: e in after.events && after.events[e].tmId == raw.tmId
  {
    var after := Perform(db, ActUpsertEvent(raw, now));
    if exists e :: e in db.events && db.events[e].tmId == raw.tmId {
      var e :| e in db.events && db.events[e].tmId == raw.tmId;
      assert e in after.events && after.events[e].tmId == raw.tmId;
    } else {
      assert db.nextEventId in after.events && after.events[db.nextEventId].tmId == raw.tmId;
    }
  }

  /** The stored event, or the fetched one stored now; the fetch happens only for events not seen before. */
  method ResolveEvent(store: Store, tmId: string, wire: Option<RawEvent>, now: Time)
    returns (e: Result<int>, ghost acts: seq<Act>)
    requires Consistent(store.Tables())
    modifies store
    ensures Consistent(store.Tables()) && store.Tables() == PerformAll(old(store.Tables()), acts)
    ensures store.watches == old(store.watches) && store.users == old(store.users) && store.nextWatchId == old(store.nextWatchId)
    ensures IsKnown(old(store.Tables()), tmId) ==> acts == []
    ensures acts == [] || (wire.Some? && acts == [ActUpsertEvent(wire.value, now)])
    ensures e.Success? ==> IsRequested(old(store.Tables()), store.Tables(), tmId, wire, e.value)
    ensures e.Failure? ==> e.error in {FetchFailed, StoreFailed}
    ensures e == Failure(FetchFailed) ==>
              acts == [] && wire.None? && !IsKnown(old(store.Tables()), tmId)
    ensures store.reliable ==> e != Failure(StoreFailed)
  {
    acts := [];
    var lookedUp := store.Reach();
    if !lookedUp {
      return Failure(StoreFailed), acts;
    }
    var known := store.GetEventByTMID(tmId);
    if known.Some? {
      return Success(known.value), acts;
    }
    if wire.None? {
      return Failure(FetchFailed), acts;
    }
    var reached := store.Reach();
    if !reached {
      return Failure(StoreFailed), acts;
    }
    ghost var before := store.Tables();
    store.Execute(ActUpsertEvent(wire.value, now));
    PerformOne(before, acts, ActUpsertEvent(wire.value, now));
    PerformKeepsConsistent(before, ActUpsertEvent(wire.value, now));
    acts := acts + [ActUpsertEvent(wire.value, now)];
    UpsertStoresEvent(before, wire.value, now);
    known := store.GetEventByTMID(wire.value.tmId);
    return Success(known.value), acts;
  }

  /** Brings the next poll forward. Creation succeeds whether or not this does. */
  method MakeDue(store: Store, e: int, now: Time, ghost origin: Db, ghost before: seq<Act>) returns (ghost acts: seq<Act>)
    requires Consistent(store.Tables()) && store.Tables() == PerformAll(origin, before) && e in store.events
    modifies store
    ensures Consistent(store.Tables()) && store.Tables() == PerformAll(origin, acts)
    ensures acts == before || acts == before + [ActMarkDue(e, now)]
    ensures store.Tables() == old(store.Tables()) || store.Tables() == MarkEventDue(old(store.Tables()), e, now)
    ensures store.reliable ==> store.events[e].nextPollAt == now
  {
    acts := before;
    var reached := store.Reach();
    if reached {
      ghost var was := store.Tables();
      store.Execute(ActMarkDue(e, now));
      PerformOne(origin, before, ActMarkDue(e, now));
      PerformKeepsConsistent(was, ActMarkDue(e, now));
      acts := before + [ActMarkDue(e, now)];
    }
  }

  /** The watch row itself, seeded from what the event is doing at that moment. */
  method InsertSeeded(store: Store, userId: int, e: int, interval: int, now: Time, ghost origin: Db, ghost before: seq<Act>)
    returns (ghost acts: seq<Act>)
    requires Consistent(store.Tables()) && e in store.events && userId in store.users
    requires store.Tables() == PerformAll(origin, before)
    modifies store
    ensures Consistent(store.Tables()) && store.Tables() == PerformAll(origin, acts)
    ensures acts == before + [ActInsertWatch(userId, e, interval, IsOnSaleNow(old(store.events)[e]), now)]
    ensures store.events == old(store.events) && old(store.nextWatchId) in store.watches
    ensures store.watches[old(store.nextWatchId)]
         == WatchRow(userId, e, Active, store.events[e].lastAvailability == Some("onsale"), false, interval, now)
  {
    var a := ActInsertWatch(userId, e, interval, IsOnSaleNow(store.events[e]), now);
    ghost var was := store.Tables();
    store.Execute(a);
    PerformOne(origin, before, a);
    PerformKeepsConsistent(was, a);
    acts := before + [a];
  }

  /** The row with its status set, or as it was when no status is given. */
  function WithStatus(row: WatchRow, status: Option<string>): WatchRow {
    if status.None? then row else row.(status := if status.value == "active" then Active else Paused)
  }

  /**
   Pausing and resuming. No status means no change, and the edge signal is never
   touched. When the event cannot be read back afterwards, the caller is told of a
   failure although the update has taken place.
   */
  method Update(store: Store, userId: int, w: int, status: Option<string>) returns (r: Result<WatchRow>, ghost updated: bool)
    modifies store
    ensures status.Some? && status.value != "active" && status.value != "paused" ==> r == Failure(InvalidStatus)
    ensures r == Failure(WatchNotFound) ==> w !in old(store.watches) || old(store.watches)[w].userId != userId
    ensures updated ==> w in old(store.watches) && old(store.watches)[w].userId == userId
    ensures store.Tables() == if updated then old(store.Tables()).(watches := old(store.watches)[w := WithStatus(old(store.watches)[w], status)])
                              else old(store.Tables())
    ensures r.Success? ==> updated && r.value == store.watches[w]
    ensures updated ==> r.Success? || r == Failure(StoreFailed)
    ensures store.reliable ==> r != Failure(StoreFailed)
  {
    updated := false;
    if status.Some? && status.value != "active" && status.value != "paused" {
      return Failure(InvalidStatus), updated;
    }
    var reached := store.Reach();
    if !reached {
      return Failure(StoreFailed), updated;
    }
    if w !in store.watches || store.watches[w].userId != userId {
      return Failure(WatchNotFound), updated;
    }
    var next := if status.None? then None else if status.value == "active" then Some(Active) else Some(Paused);
    store.Execute(ActUpdateWatch(w, userId, next));
    updated := true;
    var readBack := store.Reach();
    if !readBack {
      return Failure(StoreFailed), updated;
    }
    return Success(store.watches[w]), updated;
  }

  /**
   A user who starts watching an event that the service already knows to be on
   sale is not mailed, or even recorded as withheld, for that state: the seed makes
   every later poll quiet as long as the event shows nothing newer than the watch.
   */
  lemma WatchingAnOnsaleEventIsSilent(w: World, userId: int, e: int, interval: int, now: Time, bs: seq<Block>)
    requires Consistent(w.db) && userId in w.db.users && e in w.db.events && w.db.events[e].lastAvailability == Some("onsale")
    requires var created := Happen(w, User(ActInsertWatch(userId, e, interval, IsOnSaleNow(w.db.events[e]), now)));
             && IsSerial(created, bs)
             && w.db.nextWatchId in created.db.watches && IsQuietRun(created, bs, w.db.nextWatchId)
    ensures var created := Happen(w, User(ActInsertWatch(userId, e, interval, IsOnSaleNow(w.db.events[e]), now)));
            AlertsOn(RunBlocks(created, bs).log, w.db.nextWatchId) == AlertsOn(w.log, w.db.nextWatchId)
  {
    var act := ActInsertWatch(userId, e, interval, true, now);
    PerformKeepsConsistent(w.db, act);
    SilentWatchStaysSilent(Happen(w, User(act)), bs, w.db.nextWatchId);
  }

  /**
   The label of the row a poll has just stored and the verdict of that poll, for
   every watch of an event that is not over.
   */
  lemma StoredLabelAgrees(job: nat, w: World, e: int, o: Outcome, watch: WatchRow)
    requires IsOutcome(w.db, e, o) && !IsDatePast(w.db.events[e], o.now)
    ensures e in Happen(w, Polled(job, e, o)).db.events
    ensures var shown := DeriveSaleState(Happen(w, Polled(job, e, o)).db.events[e].Calendar(), o.now);
            && (shown == LabelCancelled <==> IsOwed(Cancelled, w.db.events[e], o.raw, o.now, watch))
            && (shown == LabelRescheduled <==> IsOwed(Rescheduled, w.db.events[e], o.raw, o.now, watch))
            && (shown == LabelClosed <==> IsOwed(SaleClosed, w.db.events[e], o.raw, o.now, watch))
            && (IsOwed(PublicOpen, w.db.events[e], o.raw, o.now, watch) ==> shown == LabelOnSale)
            && (IsOwed(StatusOnsale, w.db.events[e], o.raw, o.now, watch) ==> shown == LabelOnSale)
            && (IsOwed(PresaleOpen, w.db.events[e], o.raw, o.now, watch) ==> shown == LabelOnSale || shown == LabelPresale)
  {
    var stored := World(StoreCalendar(w.db, e, o.raw, o.next), w.log);
    RowsShape(job, stored, PollFor(w.db, e, o), o.rows);
    LabelAgreesWithOwed(Happen(w, Polled(job, e, o)).db.events[e].Calendar(), w.db.events[e], o.raw, o.now, watch);
  }

  lemma LabelAgreesWithOwed(c: Calendar, ev: EventRow, raw: RawEvent, now: Time, watch: WatchRow)
    requires !IsDatePast(ev, now) && c.polled && c.availability == Some(Normalise(raw).availability)
    requires c.publicEnd == Normalise(raw).publicEnd
    requires c.presale == if Normalise(raw).presale.Some? then Some(Normalise(raw).presale.value.start) else None
    ensures var shown := DeriveSaleState(c, now);
            && (shown == LabelCancelled <==> IsOwed(Cancelled, ev, raw, now, watch))
            && (shown == LabelRescheduled <==> IsOwed(Rescheduled, ev, raw, now, watch))
            && (shown == LabelClosed <==> IsOwed(SaleClosed, ev, raw, now, watch))
            && (IsOwed(PublicOpen, ev, raw, now, watch) ==> shown == LabelOnSale)
            && (IsOwed(StatusOnsale, ev, raw, now, watch) ==> shown == LabelOnSale)
            && (IsOwed(PresaleOpen, ev, raw, now, watch) ==> shown == LabelOnSale || shown == LabelPresale)
  {
  }
}
