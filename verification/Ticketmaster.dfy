/**
 The part of the Ticketmaster client that turns one wire event into the
 normalised snapshot the rest of the service consumes
 (internal/ticketmaster/client.go).
 */
module Ticketmaster {
  import opened Basics

  /** A numeric zone offset (section 5.6 of RFC 3339) stays below 24 hours either way. */
  type ZoneOffset = o: int | -Seconds(86_400) < o < Seconds(86_400)

  /**
   A timestamp as it arrives: missing, unparseable, or an RFC 3339 value, which
   names an instant and the zone offset it was written in.
   */
  datatype Stamp = Absent | Malformed | At(instant: Time, offset: ZoneOffset)

  datatype RawPresale = RawPresale(start: Stamp, name: string)

  datatype RawEvent = RawEvent(
    tmId: string,
    status: string,
    eventDate: Stamp,
    publicStart: Stamp,
    publicEnd: Stamp,
    startTbd: bool,
    startTba: bool,
    presales: seq<RawPresale>)

  datatype Snapshot = Snapshot(
    tmId: string,
    availability: string,
    eventDate: Option<Time>,
    publicStart: Option<Time>,
    publicEnd: Option<Time>,
    onsaleTbd: bool,
    presale: Option<Window>,
    presaleCount: nat)

  /** The earliest presale: when it opens and what it is called. */
  datatype Window = Window(start: Time, name: string)

  /** 9999-01-01T00:00:00, the first moment of the sentinel year, read off a UTC clock. */
  const SENTINEL_YEAR: Time := Seconds(253_370_764_800)

  /** Days from 1970-01-01 to the first of January of a year, by the rule for leap years. */
  function DaysBefore(year: int): int {
    365 * (year - 1970) + (year - 1) / 4 - (year - 1) / 100 + (year - 1) / 400 - 477
  }

  lemma SentinelYearBegins()
    ensures DaysBefore(1970) == 0 && DaysBefore(1971) == 365 && DaysBefore(1973) == DaysBefore(1972) + 366
    ensures SENTINEL_YEAR == DaysBefore(9999) * Seconds(86_400)
  {
  }

  /** The year is taken from the zone the stamp was written in, not from UTC. */
  predicate IsSentinel(s: Stamp) {
    s.At? && s.instant + s.offset >= SENTINEL_YEAR
  }

  predicate IsUsable(s: Stamp) {
    s.At? && s.instant + s.offset < SENTINEL_YEAR
  }

  /** The parsed time, and whether the stamp is the "not announced" sentinel. */
  function ParseSaleTime(s: Stamp): (Option<Time>, bool) {
    match s
    case Absent => (None, false)
    case Malformed => (None, false)
    case At(instant, offset) =>
      if instant + offset >= SENTINEL_YEAR then (None, true) else (Some(instant), false)
  }

  function ParseEventDate(s: Stamp): Option<Time> {
    if s.At? then Some(s.instant) else None
  }

  function NormalizeStatus(code: string): string {
    if code == "" then "unknown" else code
  }

  /** One turn of the presale loop. */
  function Earlier(best: Option<Window>, p: RawPresale): Option<Window> {
    if !IsUsable(p.start) then best
    else if best.None? || p.start.instant < best.value.start then Some(Window(p.start.instant, p.name))
    else best
  }

  function Earliest(ps: seq<RawPresale>): Option<Window> {
    if ps == [] then None else Earlier(Earliest(ps[..|ps| - 1]), ps[|ps| - 1])
  }

  function Normalise(raw: RawEvent): Snapshot {
    var (start, tbd) := ParseSaleTime(raw.publicStart);
    var (end, _) := ParseSaleTime(raw.publicEnd);
    var flagged := raw.startTbd || raw.startTba;
    Snapshot(
      raw.tmId, NormalizeStatus(raw.status), ParseEventDate(raw.eventDate),
      if flagged then None else start, end, tbd || flagged,
      Earliest(raw.presales), |raw.presales|)
  }

  method ToSnapshot(raw: RawEvent) returns (s: Snapshot)
    ensures s == Normalise(raw)
  {
    s := Snapshot(raw.tmId, NormalizeStatus(raw.status), None, None, None, false, None, 0);
    if raw.eventDate.At? {
      s := s.(eventDate := Some(raw.eventDate.instant));
    }
    var (start, tbd) := ParseSaleTime(raw.publicStart);
    if tbd {
      s := s.(onsaleTbd := true);
    } else {
      s := s.(publicStart := start);
    }
    if raw.startTbd || raw.startTba {
      s := s.(onsaleTbd := true, publicStart := None);
    }
    var (end, endTbd) := ParseSaleTime(raw.publicEnd);
    if !endTbd {
      s := s.(publicEnd := end);
    }
    s := s.(presaleCount := |raw.presales|);
    for i := 0 to |raw.presales|
      invariant s == Normalise(raw).(presale := Earliest(raw.presales[..i]))
    {
      assert raw.presales[..i + 1][..i] == raw.presales[..i];
      var p := raw.presales[i];
      var (t, ptbd) := ParseSaleTime(p.start);
      if !ptbd && t.Some? {
        if s.presale.None? || t.value < s.presale.value.start {
          s := s.(presale := Some(Window(t.value, p.name)));
        }
      }
    }
    assert raw.presales[..|raw.presales|] == raw.presales;
  }

  // ---- which presale is stored ----

  /**
   What "earliest presale" means: nothing exactly when no window is usable, and
   otherwise the first listed window among those that open at the least time.
   */
  ghost predicate IsEarliest(ps: seq<RawPresale>, w: Option<Window>) {
    match w
    case None => forall i :: 0 <= i < |ps| ==> !IsUsable(ps[i].start)
    case Some(best) => exists i :: 0 <= i < |ps| && AttainsFirst(ps, i, best)
  }

  ghost predicate AttainsFirst(ps: seq<RawPresale>, i: int, best: Window)
    requires 0 <= i < |ps|
  {
    && IsUsable(ps[i].start)
    && best == Window(ps[i].start.instant, ps[i].name)
    && (forall j :: 0 <= j < |ps| && IsUsable(ps[j].start) ==> best.start <= ps[j].start.instant)
    && (forall j :: 0 <= j < i && IsUsable(ps[j].start) ==> best.start < ps[j].start.instant)
  }

  lemma {:induction false} EarliestIsFirstMinimum(ps: seq<RawPresale>)
    ensures IsEarliest(ps, Earliest(ps))
  {
    if ps != [] {
      var n := |ps| - 1;
      var front, last := ps[..n], ps[n];
      EarliestIsFirstMinimum(front);
      var before := Earliest(front);
      if Earliest(ps) == before {
        if before.Some? {
          var i :| 0 <= i < |front| && AttainsFirst(front, i, before.value);
          assert AttainsFirst(ps, i, before.value);
        }
      } else {
        assert AttainsFirst(ps, n, Earliest(ps).value);
      }
    }
  }

  /** Listing the same windows in another order never changes the stored time. */
  lemma EarliestIgnoresOrder(ps: seq<RawPresale>, qs: seq<RawPresale>)
    requires multiset(ps) == multiset(qs)
    ensures Earliest(ps).Some? <==> Earliest(qs).Some?
    ensures Earliest(ps).Some? ==> Earliest(ps).value.start == Earliest(qs).value.start
  {
    EarliestNotAfter(ps, qs);
    EarliestNotAfter(qs, ps);
  }

  lemma EarliestNotAfter(ps: seq<RawPresale>, qs: seq<RawPresale>)
    requires multiset(ps) == multiset(qs)
    ensures Earliest(ps).Some? ==> Earliest(qs).Some? && Earliest(qs).value.start <= Earliest(ps).value.start
  {
    EarliestIsFirstMinimum(ps);
    EarliestIsFirstMinimum(qs);
    if Earliest(ps).Some? {
      var i :| 0 <= i < |ps| && AttainsFirst(ps, i, Earliest(ps).value);
      assert ps[i] in multiset(qs);
      var j :| 0 <= j < |qs| && qs[j] == ps[i];
      assert IsUsable(qs[j].start);
    }
  }

  // ---- the sentinel ----

  /** A snapshot, described from the wire event alone. The event date knows no sentinel. */
  ghost predicate Describes(s: Snapshot, raw: RawEvent) {
    && (s.onsaleTbd <==> IsSentinel(raw.publicStart) || raw.startTbd || raw.startTba)
    && (forall t :: s.publicStart == Some(t) <==>
          !s.onsaleTbd && IsUsable(raw.publicStart) && raw.publicStart.instant == t)
    && (forall t :: s.publicEnd == Some(t) <==> IsUsable(raw.publicEnd) && raw.publicEnd.instant == t)
    && IsEarliest(raw.presales, s.presale)
    && s.presaleCount == |raw.presales|
    && s.tmId == raw.tmId
    && (raw.status == "" ==> s.availability == "unknown") && (raw.status != "" ==> s.availability == raw.status)
    && (forall t :: s.eventDate == Some(t) <==> raw.eventDate.At? && raw.eventDate.instant == t)
  }

  lemma NormaliseDescribes(raw: RawEvent)
    ensures Describes(Normalise(raw), raw)
  {
    EarliestIsFirstMinimum(raw.presales);
  }

  /** A stamp in UTC year 9999 that its own zone still dates to 9998. */
  predicate SlipsThrough(s: Stamp) {
    s.At? && SENTINEL_YEAR <= s.instant < SENTINEL_YEAR - s.offset
  }

  predicate IsInSentinelYear(t: Option<Time>) {
    t.Some? && t.value >= SENTINEL_YEAR
  }

  /**
   The year test reads the stamp's own zone, so it is not a test of the stored
   UTC instant: a public start in UTC year 9999 is stored exactly when the stamp
   was written in a zone behind UTC far enough to still read 9998 there.
   */
  lemma UtcYearLeaksExactly(raw: RawEvent)
    ensures IsInSentinelYear(Normalise(raw).publicStart)
       <==> SlipsThrough(raw.publicStart) && !raw.startTbd && !raw.startTba
  {
    NormaliseDescribes(raw);
  }

  /** The end of the sale has no flag to suppress it. */
  lemma SaleEndLeaksExactly(raw: RawEvent)
    ensures IsInSentinelYear(Normalise(raw).publicEnd) <==> SlipsThrough(raw.publicEnd)
  {
    NormaliseDescribes(raw);
  }

  /** The presale leaks only when there is nothing earlier to store: some window slips through and no usable one is before the year. */
  lemma PresaleLeaksExactly(raw: RawEvent)
    ensures (Normalise(raw).presale.Some? && Normalise(raw).presale.value.start >= SENTINEL_YEAR)
       <==> (&& (exists i :: 0 <= i < |raw.presales| && SlipsThrough(raw.presales[i].start))
             && (forall i :: 0 <= i < |raw.presales| && IsUsable(raw.presales[i].start) ==> SlipsThrough(raw.presales[i].start)))
  {
    EarliestIsFirstMinimum(raw.presales);
    var p := Earliest(raw.presales);
    if p.Some? {
      var i :| 0 <= i < |raw.presales| && AttainsFirst(raw.presales, i, p.value);
      assert IsUsable(raw.presales[i].start);
      assert p.value.start >= SENTINEL_YEAR <==> SlipsThrough(raw.presales[i].start);
    }
  }

  /** No stored time lies further ahead than a day after the sentinel year begins. */
  predicate IsBelowLimit(t: Option<Time>) {
    t.Some? ==> t.value < SENTINEL_YEAR + Seconds(86_400)
  }

  lemma LeaksStayWithinADay(raw: RawEvent)
    ensures var s := Normalise(raw);
            && IsBelowLimit(s.publicStart) && IsBelowLimit(s.publicEnd)
            && (s.presale.Some? ==> IsBelowLimit(Some(s.presale.value.start)))
  {
    EarliestIsFirstMinimum(raw.presales);
  }

  /** 9998-12-31T23:30:00-05:00, which is 04:30 UTC on the first day of year 9999. */
  function LateStamp(): Stamp {
    At(SENTINEL_YEAR + Seconds(16_200), -Seconds(18_000))
  }

  /** It is stored as a public start, ... */
  lemma UtcYearCanLeak() returns (raw: RawEvent)
    ensures raw.publicStart == LateStamp()
    ensures Normalise(raw).publicStart == Some(SENTINEL_YEAR + Seconds(16_200))
    ensures !Normalise(raw).onsaleTbd
  {
    raw := RawEvent("id", "offsale", Absent, LateStamp(), Absent, false, false, []);
  }

  /** ... as a sale end even of an unannounced sale, ... */
  lemma SaleEndCanLeak() returns (raw: RawEvent)
    ensures raw.publicEnd == LateStamp() && Normalise(raw).onsaleTbd
    ensures Normalise(raw).publicEnd == Some(SENTINEL_YEAR + Seconds(16_200))
  {
    raw := RawEvent("id", "offsale", Absent, Absent, LateStamp(), true, false, []);
  }

  /** ... and as the opening of a presale. */
  lemma PresaleCanLeak() returns (raw: RawEvent)
    ensures raw.presales == [RawPresale(LateStamp(), "Fans")]
    ensures Normalise(raw).presale == Some(Window(SENTINEL_YEAR + Seconds(16_200), "Fans"))
  {
    raw := RawEvent("id", "offsale", Absent, Absent, Absent, false, false, [RawPresale(LateStamp(), "Fans")]);
    EarliestIsFirstMinimum(raw.presales);
  }
}
