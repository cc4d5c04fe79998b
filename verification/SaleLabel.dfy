/**
 The label shown beside a watch (deriveSaleState in internal/service/watch.go)
 and how far it agrees with the alerts the evaluator raises.
 */
module SaleLabel {
  import opened Basics
  import opened Evaluator

  datatype Label =
    | Checking | LabelCancelled | LabelRescheduled | LabelPresale | LabelOnSale
    | LabelClosed | LabelScheduled | LabelTbd | LabelUnknown

  /** The columns of an event row that decide its label. */
  datatype Calendar = Calendar(
    polled: bool,
    availability: Option<string>,
    publicStart: Option<Time>,
    publicEnd: Option<Time>,
    presale: Option<Time>,
    onsaleTbd: bool)

  function Str(s: Option<string>): string {
    if s.Some? then s.value else ""
  }

  function DeriveSaleState(c: Calendar, now: Time): Label {
    if !c.polled then Checking
    else if Str(c.availability) == "cancelled" then LabelCancelled
    else if Str(c.availability) == "postponed" || Str(c.availability) == "rescheduled" then LabelRescheduled
    else if c.publicEnd.Some? && c.publicEnd.value < now then LabelClosed
    else if Str(c.availability) == "onsale" then LabelOnSale
    else if c.presale.Some? && c.presale.value <= now then LabelPresale
    else if c.publicStart.Some? then LabelScheduled
    else if c.onsaleTbd then LabelTbd
    else LabelUnknown
  }

  /** The calendar a poll has just stored is the one its observation was made from. */
  predicate StoredFrom(c: Calendar, o: Observation) {
    c == Calendar(true, Some(o.availability), o.publicStart, o.publicEnd, o.presale, o.onsaleTbd)
  }

  /** The three labels that announce a terminal or moved state, with the kind that reports each. */
  function Announces(l: Label): Option<Kind> {
    match l
    case LabelCancelled => Some(Cancelled)
    case LabelRescheduled => Some(Rescheduled)
    case LabelClosed => Some(SaleClosed)
    case _ => None
  }

  predicate IsVetoed(c: Calendar) {
    c.availability in {Some("cancelled"), Some("postponed"), Some("rescheduled")}
  }

  predicate HasEnded(c: Calendar, now: Time) {
    c.publicEnd.Some? && c.publicEnd.value < now
  }

  predicate HasPresale(c: Calendar, now: Time) {
    c.presale.Some? && c.presale.value <= now
  }

  /** Polled, not vetoed, not over, not on sale and no presale yet: the sale is still to come. */
  predicate IsWaiting(c: Calendar, now: Time) {
    c.polled && !IsVetoed(c) && !HasEnded(c, now) && c.availability != Some("onsale") && !HasPresale(c, now)
  }

  /** When each label is shown, one label at a time and independent of the order of the tests. */
  predicate IsShown(l: Label, c: Calendar, now: Time) {
    match l
    case Checking => !c.polled
    case LabelCancelled => c.polled && c.availability == Some("cancelled")
    case LabelRescheduled => c.polled && c.availability in {Some("postponed"), Some("rescheduled")}
    case LabelClosed => c.polled && !IsVetoed(c) && HasEnded(c, now)
    case LabelOnSale => c.polled && !HasEnded(c, now) && c.availability == Some("onsale")
    case LabelPresale =>
      c.polled && !IsVetoed(c) && !HasEnded(c, now) && c.availability != Some("onsale") && HasPresale(c, now)
    case LabelScheduled => IsWaiting(c, now) && c.publicStart.Some?
    case LabelTbd => IsWaiting(c, now) && c.publicStart.None? && c.onsaleTbd
    case LabelUnknown => IsWaiting(c, now) && c.publicStart.None? && !c.onsaleTbd
  }

  /** Every calendar has exactly one label, and it is the one whose condition holds. */
  lemma LabelIsTheOneShown(c: Calendar, now: Time)
    ensures forall l :: DeriveSaleState(c, now) == l <==> IsShown(l, c, now)
  {
    forall l ensures DeriveSaleState(c, now) == l <==> IsShown(l, c, now) {
    }
  }

  /** The label against what is due. */
  lemma LabelAgreesWithDue(c: Calendar, o: Observation, p: Prior)
    requires StoredFrom(c, o) && !IsPast(o)
    ensures var l := DeriveSaleState(c, o.now);
            && (forall k :: k in {Cancelled, Rescheduled, SaleClosed} ==> (Announces(l) == Some(k) <==> IsDue(k, o, p)))
            && (IsDue(PublicOpen, o, p) || IsDue(StatusOnsale, o, p) ==> l == LabelOnSale)
            && (IsDue(PresaleOpen, o, p) ==> l in {LabelOnSale, LabelPresale})
            && (IsDue(OnsaleAnnounced, o, p) ==> l in {LabelScheduled, LabelPresale, LabelOnSale, LabelClosed})
  {
  }

  /**
   For an event that is not over, the label and the verdict of the same poll say
   the same thing: the announcing labels are shown exactly when their kind is
   raised, and an opening is never raised under a label that denies it.
   */
  lemma LabelAgreesWithVerdict(c: Calendar, o: Observation, p: Prior)
    requires StoredFrom(c, o) && !IsPast(o)
    ensures forall k :: k in {Cancelled, Rescheduled, SaleClosed} ==>
              (Announces(DeriveSaleState(c, o.now)) == Some(k) <==> k in Evaluate(o, p).kinds)
    ensures PublicOpen in Evaluate(o, p).kinds || StatusOnsale in Evaluate(o, p).kinds ==>
              DeriveSaleState(c, o.now) == LabelOnSale
    ensures PresaleOpen in Evaluate(o, p).kinds ==> DeriveSaleState(c, o.now) in {LabelOnSale, LabelPresale}
    ensures OnsaleAnnounced in Evaluate(o, p).kinds ==>
              DeriveSaleState(c, o.now) in {LabelScheduled, LabelPresale, LabelOnSale, LabelClosed}
  {
    VerdictReportsExactlyWhatIsDue(o, p);
    LabelAgreesWithDue(c, o, p);
  }

  /**
   "Can never disagree" is too strong once the event date has passed: the label
   does not look at the date, the evaluator does. A shown announcement goes
   unreported exactly when the event is past.
   */
  lemma LabelDisagreesExactlyWhenPast(c: Calendar, o: Observation, p: Prior)
    requires StoredFrom(c, o)
    ensures (exists k :: Announces(DeriveSaleState(c, o.now)) == Some(k) && k !in Evaluate(o, p).kinds)
       <==> IsPast(o) && Announces(DeriveSaleState(c, o.now)).Some?
  {
    VerdictReportsExactlyWhatIsDue(o, p);
    if IsPast(o) && Announces(DeriveSaleState(c, o.now)).Some? {
      var k := Announces(DeriveSaleState(c, o.now)).value;
      assert Announces(DeriveSaleState(c, o.now)) == Some(k) && k !in Evaluate(o, p).kinds;
    }
  }

  /** One such event: cancelled, and its date a second ago. The label says so, and no watch is told. */
  lemma LabelCanDisagree() returns (c: Calendar, o: Observation)
    ensures StoredFrom(c, o) && o.eventDate == Some(0) && o.now == Seconds(1)
    ensures DeriveSaleState(c, o.now) == LabelCancelled
    ensures forall p :: Cancelled !in Evaluate(o, p).kinds
  {
    o := Observation(Seconds(1), "cancelled", None, None, false, None, Some(0));
    c := Calendar(true, Some(o.availability), None, None, None, false);
    forall p ensures Cancelled !in Evaluate(o, p).kinds {
      VerdictReportsExactlyWhatIsDue(o, p);
    }
  }
}
