/**
 The veto-then-trigger rules (internal/evaluator/evaluator.go): which sale
 milestones an observation has reached, given what was known before.
 */
module Evaluator {
  import opened Basics

  datatype Kind =
    | Cancelled | Rescheduled | OnsaleAnnounced | PresaleOpen | PublicOpen | StatusOnsale | SaleClosed

  datatype Observation = Observation(
    now: Time,
    availability: string,
    publicStart: Option<Time>,
    publicEnd: Option<Time>,
    onsaleTbd: bool,
    presale: Option<Time>,
    eventDate: Option<Time>)

  /** watchCreatedAt is None for the zero time, which disables the history check. */
  datatype Prior = Prior(
    knewPublicStart: bool,
    lastEvaluation: bool,
    watchCreatedAt: Option<Time>)
  {
    predicate AlreadyHappenedBeforeWatch(t: Option<Time>) {
      watchCreatedAt.Some? && t.Some? && t.value <= watchCreatedAt.value
    }
  }

  datatype Verdict = Verdict(kinds: seq<Kind>, statusOnsale: bool, closeWatch: bool)

  function Evaluate(o: Observation, p: Prior): Verdict {
    var onsale := o.availability == "onsale";
    if o.eventDate.Some? && o.eventDate.value < o.now then
      Verdict([], onsale, true)
    else if o.availability == "cancelled" then
      Verdict([Cancelled], onsale, true)
    else if o.availability == "postponed" || o.availability == "rescheduled" then
      Verdict([Rescheduled], onsale, false)
    else
      var announced :=
        if !p.knewPublicStart && o.publicStart.Some? && o.publicStart.value > o.now then [OnsaleAnnounced] else [];
      if o.publicEnd.Some? && o.publicEnd.value < o.now then
        Verdict(announced + [SaleClosed], onsale, false)
      else
        var presale :=
          if o.presale.Some? && o.presale.value <= o.now && !p.AlreadyHappenedBeforeWatch(o.presale)
          then [PresaleOpen] else [];
        var public :=
          if o.publicStart.Some? && o.publicStart.value <= o.now && onsale && !p.AlreadyHappenedBeforeWatch(o.publicStart)
          then [PublicOpen] else [];
        var status :=
          if o.publicStart.None? && onsale && !p.lastEvaluation then [StatusOnsale] else [];
        Verdict(announced + presale + public + status, onsale, false)
  }

  // ---- the states an observation can be in ----

  predicate IsPast(o: Observation) {
    o.eventDate.Some? && o.eventDate.value < o.now
  }

  predicate IsMoved(o: Observation) {
    o.availability == "postponed" || o.availability == "rescheduled"
  }

  /** No veto applies: the event is ahead, neither cancelled nor moved. */
  predicate IsLive(o: Observation) {
    !IsPast(o) && o.availability != "cancelled" && !IsMoved(o)
  }

  predicate IsClosed(o: Observation) {
    o.publicEnd.Some? && o.publicEnd.value < o.now
  }

  /** The instant t has been reached, and was reached after the user subscribed. */
  predicate IsNews(t: Option<Time>, o: Observation, p: Prior) {
    t.Some? && t.value <= o.now && (p.watchCreatedAt.Some? ==> p.watchCreatedAt.value < t.value)
  }

  /** When each kind is due, one kind at a time and independent of report order. */
  predicate IsDue(k: Kind, o: Observation, p: Prior) {
    match k
    case Cancelled => !IsPast(o) && o.availability == "cancelled"
    case Rescheduled => !IsPast(o) && IsMoved(o)
    case OnsaleAnnounced => IsLive(o) && !p.knewPublicStart && o.publicStart.Some? && o.now < o.publicStart.value
    case SaleClosed => IsLive(o) && IsClosed(o)
    case PresaleOpen => IsLive(o) && !IsClosed(o) && IsNews(o.presale, o, p)
    case PublicOpen => IsLive(o) && !IsClosed(o) && o.availability == "onsale" && IsNews(o.publicStart, o, p)
    case StatusOnsale => IsLive(o) && !IsClosed(o) && o.availability == "onsale" && o.publicStart.None? && !p.lastEvaluation
  }

  /** Every kind is reported exactly when it is due, and at most once per verdict. */
  lemma VerdictReportsExactlyWhatIsDue(o: Observation, p: Prior)
    ensures forall k :: k in Evaluate(o, p).kinds <==> IsDue(k, o, p)
    ensures forall i, j :: 0 <= i < j < |Evaluate(o, p).kinds| ==> Evaluate(o, p).kinds[i] != Evaluate(o, p).kinds[j]
    ensures Evaluate(o, p).closeWatch <==> IsPast(o) || o.availability == "cancelled"
    ensures Evaluate(o, p).statusOnsale <==> o.availability == "onsale"
  {
    forall k ensures k in Evaluate(o, p).kinds <==> IsDue(k, o, p) {
      KindReportedExactlyWhenDue(o, p, k);
    }
  }

  lemma KindReportedExactlyWhenDue(o: Observation, p: Prior, k: Kind)
    ensures k in Evaluate(o, p).kinds <==> IsDue(k, o, p)
  {
  }

  /** A veto is never mixed with a sale alert, and "closed" never with "open". */
  lemma VetoesStandAlone(o: Observation, p: Prior)
    ensures IsPast(o) ==> Evaluate(o, p).kinds == []
    ensures !IsPast(o) && !IsLive(o) ==> |Evaluate(o, p).kinds| == 1
    ensures SaleClosed in Evaluate(o, p).kinds ==>
              {PresaleOpen, PublicOpen, StatusOnsale} !! (set k | k in Evaluate(o, p).kinds)
    ensures !(PublicOpen in Evaluate(o, p).kinds && StatusOnsale in Evaluate(o, p).kinds)
  {
    VerdictReportsExactlyWhatIsDue(o, p);
  }

  /**
   The observation offers nothing new to someone who subscribed at createdAt while
   the event was already on sale.
   */
  predicate IsQuiet(o: Observation, createdAt: Time) {
    && o.availability == "onsale"
    && createdAt <= o.now
    && (o.publicStart.Some? ==> o.publicStart.value <= createdAt)
    && (o.presale.Some? ==> o.presale.value <= createdAt)
    && (o.publicEnd.Some? ==> o.now <= o.publicEnd.value)
  }

  /** A quiet observation raises nothing whether or not the onsale date was known. */
  lemma QuietRaisesNothing(o: Observation, p: Prior, createdAt: Time)
    requires IsQuiet(o, createdAt) && p.lastEvaluation && p.watchCreatedAt == Some(createdAt)
    ensures Evaluate(o, p).kinds == [] && Evaluate(o, p).statusOnsale
  {
  }
}
