/**
 The tables the alert engine reads and writes, with the meaning of each SQL
 statement (internal/store/queries/queries.sql and the migrations) as a function
 on table contents, and the store object whose methods are those statements.
 */
module AlertStore {
  import opened Basics
  import opened Ticketmaster
  import opened Evaluator
  import SaleLabel

  datatype EventRow = EventRow(
    tmId: string,
    eventDate: Option<Time>,
    lastAvailability: Option<string>,
    publicStart: Option<Time>,
    publicEnd: Option<Time>,
    presale: Option<Time>,
    presaleName: Option<string>,
    presaleCount: nat,
    onsaleTbd: bool,
    polled: bool,
    nextPollAt: Time)
  {
    function Calendar(): SaleLabel.Calendar {
      SaleLabel.Calendar(polled, lastAvailability, publicStart, publicEnd, presale, onsaleTbd)
    }
  }

  datatype Status = Active | Paused

  datatype WatchRow = WatchRow(
    userId: int,
    eventId: int,
    status: Status,
    lastEvaluation: bool,
    notified: bool,
    pollInterval: int,
    createdAt: Time)

  /** Only whether each consent column is set matters, not when it was set. */
  datatype UserRow = UserRow(verified: bool, unsubscribed: bool)

  datatype Db = Db(
    events: map<int, EventRow>,
    watches: map<int, WatchRow>,
    users: map<int, UserRow>,
    claims: set<(int, Kind)>,
    snapshots: seq<(int, string)>,
    nextEventId: int,
    nextWatchId: int)

  /** Foreign keys hold, and serial ids are never handed out twice. */
  ghost predicate Consistent(db: Db) {
    && (forall e :: e in db.events ==> e < db.nextEventId)
    && (forall w :: w in db.watches ==>
          w < db.nextWatchId && db.watches[w].userId in db.users && db.watches[w].eventId in db.events)
    && (forall c :: c in db.claims ==> c.0 in db.watches)
  }

  /** One row of ListActiveWatchesForEvent: the watch joined with its owner's consent. */
  datatype ActiveWatch = ActiveWatch(
    id: int,
    userId: int,
    lastEvaluation: bool,
    createdAt: Time,
    verified: bool,
    unsubscribed: bool)

  predicate IsActiveOn(db: Db, eventId: int, w: int) {
    w in db.watches && db.watches[w].eventId == eventId && db.watches[w].status == Active
  }

  predicate IsRowOf(db: Db, r: ActiveWatch) {
    && r.id in db.watches
    && var w := db.watches[r.id];
       && w.userId in db.users
       && r == ActiveWatch(r.id, w.userId, w.lastEvaluation, w.createdAt,
                           db.users[w.userId].verified, db.users[w.userId].unsubscribed)
  }

  /** The query has no ORDER BY: any arrangement of the active rows, each once. */
  ghost predicate IsListing(db: Db, eventId: int, rows: seq<ActiveWatch>) {
    && (forall i :: 0 <= i < |rows| ==> IsActiveOn(db, eventId, rows[i].id) && IsRowOf(db, rows[i]))
    && (forall i, j :: 0 <= i < j < |rows| ==> rows[i].id != rows[j].id)
    && (forall w :: IsActiveOn(db, eventId, w) && db.watches[w].userId in db.users ==>
          exists i :: 0 <= i < |rows| && rows[i].id == w)
  }

  const DEFAULT_INTERVAL: int := 300

  /** The least interval any active watch asked for, or the default when there is none. */
  ghost predicate IsMinInterval(db: Db, eventId: int, v: int) {
    && (forall w :: IsActiveOn(db, eventId, w) ==> v <= db.watches[w].pollInterval)
    && ((exists w :: IsActiveOn(db, eventId, w) && db.watches[w].pollInterval == v)
        || (v == DEFAULT_INTERVAL && forall w :: !IsActiveOn(db, eventId, w)))
  }

  ghost predicate IsDueEvent(db: Db, eventId: int, now: Time) {
    && eventId in db.events
    && db.events[eventId].nextPollAt <= now
    && exists w :: IsActiveOn(db, eventId, w)
  }

  /** ORDER BY next_poll_at LIMIT: the earliest due events, no more than the limit, ties in any order. */
  ghost predicate IsDueListing(db: Db, now: Time, limit: nat, ids: seq<int>) {
    && |ids| <= limit
    && (forall i :: 0 <= i < |ids| ==> IsDueEvent(db, ids[i], now))
    && (forall i, j :: 0 <= i < j < |ids| ==>
          ids[i] != ids[j] && db.events[ids[i]].nextPollAt <= db.events[ids[j]].nextPollAt)
    && (forall e :: IsDueEvent(db, e, now) && e !in ids ==>
          |ids| == limit && forall i :: 0 <= i < |ids| ==> db.events[ids[i]].nextPollAt <= db.events[e].nextPollAt)
  }

  // ---- statements the worker issues ----

  function StrPtr(s: string): Option<string> {
    if s == "" then None else Some(s)
  }

  function InsertSnapshot(db: Db, eventId: int, avail: string): Db {
    db.(snapshots := db.snapshots + [(eventId, avail)])
  }

  /** The row with the calendar of a snapshot written over it. */
  function WithCalendar(row: EventRow, s: Snapshot): EventRow {
    row.(lastAvailability := Some(s.availability),
         publicStart := s.publicStart,
         publicEnd := s.publicEnd,
         presale := if s.presale.Some? then Some(s.presale.value.start) else None,
         presaleName := if s.presale.Some? then StrPtr(s.presale.value.name) else None,
         presaleCount := s.presaleCount,
         onsaleTbd := s.onsaleTbd,
         polled := true)
  }

  function UpdateEventLatest(db: Db, eventId: int, s: Snapshot, next: Time): Db {
    if eventId !in db.events then db
    else db.(events := db.events[eventId := WithCalendar(db.events[eventId], s).(nextPollAt := next)])
  }

  function SetLastEvaluation(db: Db, w: int, value: bool): Db {
    if w !in db.watches then db
    else db.(watches := db.watches[w := db.watches[w].(lastEvaluation := value)])
  }

  function MarkNotified(db: Db, w: int): Db {
    if w !in db.watches then db
    else db.(watches := db.watches[w := db.watches[w].(notified := true)])
  }

  function ClaimAlert(db: Db, w: int, k: Kind): Db {
    db.(claims := db.claims + {(w, k)})
  }

  function CloseWatches(db: Db, eventId: int): Db {
    db.(watches := map w | w in db.watches ::
          if db.watches[w].eventId == eventId then db.watches[w].(status := Paused) else db.watches[w])
  }

  // ---- statements the services issue ----

  /** INSERT ... ON CONFLICT (tm_event_id) DO UPDATE. */
  function UpsertEvent(db: Db, s: Snapshot, now: Time): Db {
    if exists e :: e in db.events && db.events[e].tmId == s.tmId then
      db.(events := map e | e in db.events ::
            if db.events[e].tmId == s.tmId
            then WithCalendar(db.events[e], s).(eventDate := s.eventDate)
            else db.events[e])
    else
      var blank := EventRow(s.tmId, s.eventDate, None, None, None, None, None, 0, false, false, now);
      db.(events := db.events[db.nextEventId := WithCalendar(blank, s)], nextEventId := db.nextEventId + 1)
  }

  /** A foreign key rejects a watch on a missing user or event. */
  function InsertWatch(db: Db, userId: int, eventId: int, interval: int, seed: bool, now: Time): Db {
    if userId !in db.users || eventId !in db.events then db
    else db.(watches := db.watches[db.nextWatchId := WatchRow(userId, eventId, Active, seed, false, interval, now)],
             nextWatchId := db.nextWatchId + 1)
  }

  function MarkEventDue(db: Db, eventId: int, now: Time): Db {
    if eventId !in db.events then db
    else db.(events := db.events[eventId := db.events[eventId].(nextPollAt := now)])
  }

  function UpdateWatch(db: Db, w: int, userId: int, status: Option<Status>): Db {
    if w !in db.watches || db.watches[w].userId != userId || status.None? then db
    else db.(watches := db.watches[w := db.watches[w].(status := status.value)])
  }

  /** Deleting watches cascades to their claims. */
  function DropWatches(db: Db, doomed: set<int>): Db {
    db.(watches := map w | w in db.watches && w !in doomed :: db.watches[w],
        claims := set c | c in db.claims && c.0 !in doomed)
  }

  function DeleteWatch(db: Db, w: int, userId: int): Db {
    if w !in db.watches || db.watches[w].userId != userId then db else DropWatches(db, {w})
  }

  function DeleteUser(db: Db, userId: int): Db {
    var rest := DropWatches(db, set w | w in db.watches && db.watches[w].userId == userId);
    rest.(users := map u | u in db.users && u != userId :: db.users[u])
  }

  function CreateUser(db: Db, userId: int): Db {
    if userId in db.users then db else db.(users := db.users[userId := UserRow(false, false)])
  }

  function SetConsent(db: Db, userId: int, row: UserRow): Db {
    if userId !in db.users then db else db.(users := db.users[userId := row])
  }

  // ---- actions of users and services, as one relation ----

  datatype Act =
    | ActUpsertEvent(raw: RawEvent, at: Time)
    | ActInsertWatch(userId: int, eventId: int, interval: int, seed: bool, at: Time)
    | ActMarkDue(eventId: int, at: Time)
    | ActUpdateWatch(w: int, userId: int, status: Option<Status>)
    | ActDeleteWatch(w: int, userId: int)
    | ActCreateUser(userId: int)
    | ActDeleteUser(userId: int)
    | ActSetConsent(userId: int, row: UserRow)

  function Perform(db: Db, a: Act): Db {
    match a
    case ActUpsertEvent(raw, at) => UpsertEvent(db, Normalise(raw), at)
    case ActInsertWatch(u, e, interval, seed, at) => InsertWatch(db, u, e, interval, seed, at)
    case ActMarkDue(e, at) => MarkEventDue(db, e, at)
    case ActUpdateWatch(w, u, status) => UpdateWatch(db, w, u, status)
    case ActDeleteWatch(w, u) => DeleteWatch(db, w, u)
    case ActCreateUser(u) => CreateUser(db, u)
    case ActDeleteUser(u) => DeleteUser(db, u)
    case ActSetConsent(u, row) => SetConsent(db, u, row)
  }

  lemma PerformKeepsConsistent(db: Db, a: Act)
    requires Consistent(db)
    ensures Consistent(Perform(db, a))
    ensures db.nextWatchId <= Perform(db, a).nextWatchId
    ensures db.events.Keys <= Perform(db, a).events.Keys
  {
  }

  /**
   An upsert writes calendar and date over the stored event with that id, keeping the
   time of its next poll, or adds a row that is due at once; no other row changes.
   */
  lemma UpsertIsExact(db: Db, raw: RawEvent, at: Time, e: int)
    requires Consistent(db)
    ensures var after, s := Perform(db, ActUpsertEvent(raw, at)), Normalise(raw);
            var known := exists f :: f in db.events && db.events[f].tmId == s.tmId;
            && after == db.(events := after.events, nextEventId := after.nextEventId)
            && (e in after.events <==> e in db.events || (!known && e == db.nextEventId))
            && (e in db.events && db.events[e].tmId != s.tmId ==> after.events[e] == db.events[e])
            && (e in after.events && after.events[e].tmId == s.tmId ==>
                  && after.events[e].eventDate == s.eventDate && after.events[e].polled
                  && after.events[e].lastAvailability == Some(s.availability)
                  && after.events[e].nextPollAt == if e in db.events then db.events[e].nextPollAt else at)
  {
    assert db.nextEventId !in db.events;
  }

  /** Deleting a watch, or a user with all of theirs, takes the claims along and leaves everything else as it was. */
  lemma DeletionIsExact(db: Db, a: Act)
    requires a.ActDeleteWatch? || a.ActDeleteUser?
    ensures var after := Perform(db, a);
            && (forall w :: w in after.watches <==>
                  w in db.watches && !(db.watches[w].userId == a.userId && (a.ActDeleteWatch? ==> w == a.w)))
            && (forall w :: w in after.watches ==> after.watches[w] == db.watches[w])
            && (Consistent(db) ==> forall c :: c in after.claims <==> c in db.claims && c.0 in after.watches)
            && (forall u :: u in after.users <==> u in db.users && !(a.ActDeleteUser? && u == a.userId))
            && (forall u :: u in after.users ==> after.users[u] == db.users[u])
            && after.events == db.events && after.snapshots == db.snapshots && after.nextWatchId == db.nextWatchId
  {
  }

  // ---- the store object ----

  class Store {
    /** Whether every call reaches the database; when not, any call may fail. */
    const reliable: bool
    var events: map<int, EventRow>
    var watches: map<int, WatchRow>
    var users: map<int, UserRow>
    var claims: set<(int, Kind)>
    var snapshots: seq<(int, string)>
    var nextEventId: int
    var nextWatchId: int

    function Tables(): Db
      reads this
    {
      Db(events, watches, users, claims, snapshots, nextEventId, nextWatchId)
    }

    constructor (reliable: bool)
      ensures this.reliable == reliable
      ensures Tables() == Db(map[], map[], map[], {}, [], 1, 1)
      ensures Consistent(Tables())
    {
      this.reliable := reliable;
      events, watches, users, claims, snapshots := map[], map[], map[], {}, [];
      nextEventId, nextWatchId := 1, 1;
    }

    method Reach() returns (reached: bool)
      ensures reliable ==> reached
    {
      reached := *;
      if reliable {
        reached := true;
      }
    }

    /** A failed call leaves every table as it was. */
    method GetEvent(id: int) returns (row: Option<EventRow>)
      ensures row.Some? ==> id in events && row.value == events[id]
      ensures reliable && id in events ==> row.Some?
    {
      row := None;
      var reached := Reach();
      if reached {
        if id in events {
          row := Some(events[id]);
        }
      }
    }

    method InsertAvailabilitySnapshot(eventId: int, avail: string) returns (ok: bool)
      modifies this
      ensures Tables() == if ok then InsertSnapshot(old(Tables()), eventId, avail) else old(Tables())
      ensures Tables() == old(Tables()).(snapshots := old(snapshots) + if ok then [(eventId, avail)] else [])
      ensures reliable ==> ok
    {
      ok := Reach();
      if ok {
        snapshots := snapshots + [(eventId, avail)];
      }
    }

    method MinPollIntervalForEvent(eventId: int) returns (interval: Option<int>)
      ensures interval.Some? ==> IsMinInterval(Tables(), eventId, interval.value)
      ensures reliable ==> interval.Some?
    {
      interval := None;
      var reached := Reach();
      if reached {
        var todo := watches.Keys;
        var best: Option<int> := None;
        while todo != {}
          invariant todo <= watches.Keys
          invariant best.None? ==> forall w :: IsActiveOn(Tables(), eventId, w) ==> w in todo
          invariant best.Some? ==> exists w :: IsActiveOn(Tables(), eventId, w) && watches[w].pollInterval == best.value
          invariant best.Some? ==>
                      forall w :: IsActiveOn(Tables(), eventId, w) && w !in todo ==> best.value <= watches[w].pollInterval
        {
          var w := Pick(todo);
          todo := todo - {w};
          if watches[w].eventId == eventId && watches[w].status == Active {
            assert IsActiveOn(Tables(), eventId, w);
            if best.None? || watches[w].pollInterval < best.value {
              best := Some(watches[w].pollInterval);
            }
          }
        }
        interval := if best.Some? then best else Some(DEFAULT_INTERVAL);
      }
    }

    method UpdateLatest(eventId: int, s: Snapshot, next: Time) returns (ok: bool)
      modifies this
      ensures Tables() == if ok then UpdateEventLatest(old(Tables()), eventId, s, next) else old(Tables())
      ensures ok && eventId in old(events) ==>
                var was := old(events)[eventId];
                Tables() == old(Tables()).(events := old(events)[eventId :=
                  EventRow(was.tmId, was.eventDate, Some(s.availability), s.publicStart, s.publicEnd,
                           if s.presale.Some? then Some(s.presale.value.start) else None,
                           if s.presale.Some? && s.presale.value.name != "" then Some(s.presale.value.name) else None,
                           s.presaleCount, s.onsaleTbd, true, next)])
      ensures reliable ==> ok
    {
      ok := Reach();
      if ok && eventId in events {
        events := events[eventId := WithCalendar(events[eventId], s).(nextPollAt := next)];
      }
    }

    method ListActiveWatchesForEvent(eventId: int) returns (rows: Option<seq<ActiveWatch>>)
      ensures rows.Some? ==> IsListing(Tables(), eventId, rows.value)
      ensures reliable ==> rows.Some?
    {
      rows := None;
      var reached := Reach();
      if reached {
        var todo := watches.Keys;
        var found: seq<ActiveWatch> := [];
        while todo != {}
          invariant todo <= watches.Keys
          invariant forall i :: 0 <= i < |found| ==>
                      IsActiveOn(Tables(), eventId, found[i].id) && IsRowOf(Tables(), found[i]) && found[i].id !in todo
          invariant forall i, j :: 0 <= i < j < |found| ==> found[i].id != found[j].id
          invariant forall w :: IsActiveOn(Tables(), eventId, w) && watches[w].userId in users && w !in todo ==>
                      exists i :: 0 <= i < |found| && found[i].id == w
        {
          var w := Pick(todo);
          todo := todo - {w};
          var row := watches[w];
          if row.eventId == eventId && row.status == Active && row.userId in users {
            var before := found;
            found := found + [ActiveWatch(w, row.userId, row.lastEvaluation, row.createdAt,
                                          users[row.userId].verified, users[row.userId].unsubscribed)];
            assert found[|before|].id == w;
            assert forall i :: 0 <= i < |before| ==> found[i] == before[i];
          }
        }
        rows := Some(found);
      }
    }

    /**
     INSERT ... ON CONFLICT DO NOTHING: one row the first time and zero after. A
     watch deleted meanwhile makes the insert fail on its foreign key.
     */
    method ClaimWatchAlert(w: int, k: Kind) returns (inserted: Option<nat>)
      modifies this
      ensures inserted.Some? ==> w in old(watches) && Tables() == ClaimAlert(old(Tables()), w, k)
      ensures inserted.Some? ==> inserted.value == if (w, k) in old(claims) then 0 else 1
      ensures Tables() == old(Tables()).(claims := old(claims) + if inserted.Some? then {(w, k)} else {})
      ensures reliable && w in old(watches) ==> inserted.Some?
    {
      inserted := None;
      var reached := Reach();
      if reached {
        if w in watches {
          inserted := Some(if (w, k) in claims then 0 else 1);
          claims := claims + {(w, k)};
        }
      }
    }

    method RecordNotified(w: int) returns (ok: bool)
      modifies this
      ensures Tables() == if ok then MarkNotified(old(Tables()), w) else old(Tables())
      ensures ok && w in old(watches) ==>
                Tables() == old(Tables()).(watches := old(watches)[w := old(watches)[w].(notified := true)])
      ensures reliable ==> ok
    {
      ok := Reach();
      if ok && w in watches {
        watches := watches[w := watches[w].(notified := true)];
      }
    }

    method RecordEvaluation(w: int, value: bool) returns (ok: bool)
      modifies this
      ensures Tables() == if ok then SetLastEvaluation(old(Tables()), w, value) else old(Tables())
      ensures ok && w in old(watches) ==>
                Tables() == old(Tables()).(watches := old(watches)[w := old(watches)[w].(lastEvaluation := value)])
      ensures reliable ==> ok
    {
      ok := Reach();
      if ok && w in watches {
        watches := watches[w := watches[w].(lastEvaluation := value)];
      }
    }

    method CloseWatchesForEvent(eventId: int) returns (ok: bool)
      modifies this
      ensures Tables() == if ok then CloseWatches(old(Tables()), eventId) else old(Tables())
      ensures Tables() == old(Tables()).(watches := watches) && watches.Keys == old(watches).Keys
      ensures forall w :: w in watches ==>
                watches[w] == if ok && old(watches)[w].eventId == eventId then old(watches)[w].(status := Paused) else old(watches)[w]
      ensures reliable ==> ok
    {
      ok := Reach();
      if ok {
        watches := map w | w in watches ::
                     if watches[w].eventId == eventId then watches[w].(status := Paused) else watches[w];
      }
    }

    method HasActiveWatch(eventId: int) returns (yes: bool)
      ensures yes <==> exists w :: IsActiveOn(Tables(), eventId, w)
    {
      var todo := watches.Keys;
      while todo != {}
        invariant todo <= watches.Keys
        invariant forall w :: IsActiveOn(Tables(), eventId, w) ==> w in todo
      {
        var w := Pick(todo);
        todo := todo - {w};
        if watches[w].eventId == eventId && watches[w].status == Active {
          assert IsActiveOn(Tables(), eventId, w);
          return true;
        }
      }
      return false;
    }

    /** Events whose time has come and that an active watch cares about, earliest first. */
    method ListDueEvents(limit: nat, now: Time) returns (ids: Option<seq<int>>)
      ensures ids.Some? ==> IsDueListing(Tables(), now, limit, ids.value)
      ensures reliable ==> ids.Some?
    {
      var reached := Reach();
      if !reached {
        return None;
      }
      var todo := events.Keys;
      var due: set<int> := {};
      while todo != {}
        invariant todo <= events.Keys
        invariant forall e :: e in due ==> IsDueEvent(Tables(), e, now)
        invariant forall e :: IsDueEvent(Tables(), e, now) && e !in todo ==> e in due
      {
        var e := Pick(todo);
        todo := todo - {e};
        if events[e].nextPollAt <= now {
          var active := HasActiveWatch(e);
          if active {
            due := due + {e};
          }
        }
      }
      var found: seq<int> := [];
      while due != {} && |found| < limit
        invariant |found| <= limit
        invariant forall e :: e in due ==> IsDueEvent(Tables(), e, now) && e !in found
        invariant forall i :: 0 <= i < |found| ==> IsDueEvent(Tables(), found[i], now)
        invariant forall i, j :: 0 <= i < j < |found| ==>
                    found[i] != found[j] && events[found[i]].nextPollAt <= events[found[j]].nextPollAt
        invariant forall i, e :: 0 <= i < |found| && e in due ==> events[found[i]].nextPollAt <= events[e].nextPollAt
        invariant forall e :: IsDueEvent(Tables(), e, now) ==> e in due || e in found
        decreases due
      {
        var e := EarliestOf(due, now);
        due := due - {e};
        found := found + [e];
      }
      return Some(found);
    }

    method EarliestOf(due: set<int>, ghost now: Time) returns (first: int)
      requires due != {} && forall e :: e in due ==> IsDueEvent(Tables(), e, now)
      ensures first in due && first in events && forall e :: e in due && e in events ==> events[first].nextPollAt <= events[e].nextPollAt
    {
      first := Pick(due);
      var todo := due - {first};
      while todo != {}
        invariant todo <= due && first in due
        invariant forall e :: e in due && e !in todo ==> events[first].nextPollAt <= events[e].nextPollAt
      {
        var e := Pick(todo);
        todo := todo - {e};
        if events[e].nextPollAt < events[first].nextPollAt {
          first := e;
        }
      }
    }

    method GetEventByTMID(tmId: string) returns (id: Option<int>)
      ensures id.Some? ==> id.value in events && events[id.value].tmId == tmId
      ensures id.None? ==> forall e :: e in events ==> events[e].tmId != tmId
    {
      id := None;
      var todo := events.Keys;
      while todo != {} && id.None?
        invariant todo <= events.Keys
        invariant id.Some? ==> id.value in events && events[id.value].tmId == tmId
        invariant id.None? ==> forall e :: e in events && e !in todo ==> events[e].tmId != tmId
        decreases |todo|, id.None?
      {
        var e := Pick(todo);
        todo := todo - {e};
        if events[e].tmId == tmId {
          id := Some(e);
        }
      }
    }

    /** One statement issued by a service or a user request. */
    method Execute(a: Act)
      modifies this
      ensures Tables() == Perform(old(Tables()), a)
    {
      var db := Perform(Tables(), a);
      events, watches, users, claims := db.events, db.watches, db.users, db.claims;
      snapshots, nextEventId, nextWatchId := db.snapshots, db.nextEventId, db.nextWatchId;
    }
  }
}
