/**
 What the log says about one watch: its evaluations, the alerts about it, the
 signal that edge triggering compares, and what one call of one job does to them.
 */
module WatchSignal {
  import opened Basics
  import opened Evaluator
  import opened AlertStore
  import opened AlertEngine
  import Ledger = ClaimLedger

  // ---- reading the log for one watch ----

  datatype Eval = Eval(onsale: bool, flipped: bool)

  function EvalIn(e: Entry, w: int): seq<Eval> {
    if e.Evaluated? && e.w == w then [Eval(e.onsale, e.flipped)] else []
  }

  /** The evaluations recorded for a watch, in order. */
  function EvalsOf(log: seq<Entry>, w: int): seq<Eval> {
    if log == [] then [] else EvalsOf(log[..|log| - 1], w) + EvalIn(log[|log| - 1], w)
  }

  predicate IsAlertOn(e: Entry, w: int) {
    match e
    case Won(_, w', _) => w' == w
    case Sent(_, row, _) => row.id == w
    case Withheld(_, w', _) => w' == w
    case Abandoned(_, w', _) => w' == w
    case Evaluated(_, _, _, _) => false
  }

  /** Everything done about alerts for a watch: claimed, sent or withheld. */
  function AlertsOn(log: seq<Entry>, w: int): seq<Entry> {
    if log == [] then []
    else AlertsOn(log[..|log| - 1], w) + if IsAlertOn(log[|log| - 1], w) then [log[|log| - 1]] else []
  }

  lemma LogAppended(log: seq<Entry>, e: Entry)
    ensures forall w :: EvalsOf(log + [e], w) == EvalsOf(log, w) + EvalIn(e, w)
    ensures forall w :: AlertsOn(log + [e], w) == if IsAlertOn(e, w) then AlertsOn(log, w) + [e] else AlertsOn(log, w)
  {
    assert (log + [e])[..|log|] == log;
  }

  predicate IsOnsaleAlert(e: Entry) {
    (e.Sent? || e.Withheld?) && e.kind == StatusOnsale
  }

  /** How many on-sale flips were mailed or withheld. */
  function OnsaleAlerts(alerts: seq<Entry>): nat {
    if alerts == [] then 0
    else OnsaleAlerts(alerts[..|alerts| - 1]) + if IsOnsaleAlert(alerts[|alerts| - 1]) then 1 else 0
  }

  lemma OnsaleAlertsAppended(alerts: seq<Entry>, e: Entry)
    ensures OnsaleAlerts(alerts + [e]) == OnsaleAlerts(alerts) + if IsOnsaleAlert(e) then 1 else 0
  {
    assert (alerts + [e])[..|alerts|] == alerts;
  }

  // ---- the signal ----

  /** Whether the watch was on sale just before its i-th evaluation. */
  function Before(seed: bool, es: seq<Eval>, i: nat): bool
    requires i <= |es|
  {
    if i == 0 then seed else es[i - 1].onsale
  }

  /** A flip is reported only where the signal rises. */
  ghost predicate FlipsOnlyRise(seed: bool, es: seq<Eval>) {
    forall i :: 0 <= i < |es| && es[i].flipped ==> es[i].onsale && !Before(seed, es, i)
  }

  function CountFlips(es: seq<Eval>): nat {
    if es == [] then 0 else CountFlips(es[..|es| - 1]) + if es[|es| - 1].flipped then 1 else 0
  }

  lemma FlipsAppended(seed: bool, es: seq<Eval>, e: Eval)
    requires FlipsOnlyRise(seed, es) && (e.flipped ==> e.onsale && !Before(seed, es, |es|))
    ensures FlipsOnlyRise(seed, es + [e])
  {
    var more := es + [e];
    forall i | 0 <= i < |more| && more[i].flipped ensures more[i].onsale && !Before(seed, more, i) {
      if i < |es| {
        assert more[i] == es[i];
      }
    }
  }

  function CountRises(seed: bool, es: seq<Eval>): nat {
    if es == [] then 0
    else
      var n := |es| - 1;
      CountRises(seed, es[..n]) + if es[n].onsale && !Before(seed, es, n) then 1 else 0
  }

  /** Two flips are separated by an evaluation that was not on sale, and there are at most as many as rising edges. */
  lemma {:induction false} FlipsAreSeparated(seed: bool, es: seq<Eval>)
    requires FlipsOnlyRise(seed, es)
    ensures forall i, j :: 0 <= i < j < |es| && es[i].flipped && es[j].flipped ==> exists k :: i < k < j && !es[k].onsale
    ensures CountFlips(es) <= CountRises(seed, es)
  {
    forall i, j | 0 <= i < j < |es| && es[i].flipped && es[j].flipped ensures exists k :: i < k < j && !es[k].onsale {
      assert es[j].onsale && !Before(seed, es, j);
      assert i < j - 1 < j && !es[j - 1].onsale;
    }
    if es != [] {
      var front := es[..|es| - 1];
      assert FlipsOnlyRise(seed, front) by {
        forall i | 0 <= i < |front| && front[i].flipped ensures front[i].onsale && !Before(seed, front, i) {
          assert front[i] == es[i];
          assert i > 0 ==> front[i - 1] == es[i - 1];
        }
      }
      FlipsAreSeparated(seed, front);
      assert forall i :: 0 <= i <= |front| ==> Before(seed, front, i) == Before(seed, es, i);
    }
  }

  // ---- one call ----

  predicate DistinctKinds(kinds: seq<Kind>) {
    forall i, j :: 0 <= i < j < |kinds| ==> kinds[i] != kinds[j]
  }

  predicate DistinctRows(rows: seq<ActiveWatch>) {
    forall i, j :: 0 <= i < j < |rows| ==> rows[i].id != rows[j].id
  }

  /** The kinds of the current verdict that are still to be settled. */
  function Left(pc: Pc): seq<Kind> {
    match pc
    case Claim(_, _, k, kinds, _, _) => [k] + kinds
    case Deliver(_, _, k, kinds, _, _) => [k] + kinds
    case Mark(_, _, kinds, _, _) => kinds
    case _ => []
  }

  /** The job is somewhere in the inner part of the loop, with a watch in hand. */
  predicate HasRow(pc: Pc) {
    pc.Claim? || pc.Deliver? || pc.Mark? || pc.Record?
  }

  /** What is still to be settled belongs to the verdict, each kind once, and no watch is waiting twice. */
  ghost predicate IsWellPlaced(pc: Pc) {
    && DistinctRows(Ledger.RowsOf(pc))
    && (HasRow(pc) ==> DistinctKinds(Left(pc)) && forall k :: k in Left(pc) ==> k in VerdictFor(pc.poll, pc.row).kinds)
  }

  /** The on-sale flip of the watch is out, mailed or withheld, and the signal that goes with it is not stored yet. */
  predicate FlipIsOut(pc: Pc, x: int) {
    HasRow(pc) && pc.row.id == x && StatusOnsale in VerdictFor(pc.poll, pc.row).kinds && StatusOnsale !in Left(pc)
  }

  function OutCount(pc: Pc, x: int): nat {
    if FlipIsOut(pc, x) then 1 else 0
  }

  /** On-sale alerts about the watch, mailed or withheld. */
  function AlertCount(log: seq<Entry>, x: int): nat {
    OnsaleAlerts(AlertsOn(log, x))
  }

  /** Flips recorded for the watch. */
  function FlipCount(log: seq<Entry>, x: int): nat {
    CountFlips(EvalsOf(log, x))
  }

  lemma EntryCounts(log: seq<Entry>, e: Entry, x: int)
    ensures AlertCount(log + [e], x) == AlertCount(log, x) + if IsAlertOn(e, x) && IsOnsaleAlert(e) then 1 else 0
    ensures EvalsOf(log + [e], x) == EvalsOf(log, x) + EvalIn(e, x)
    ensures FlipCount(log + [e], x) == FlipCount(log, x) + if e.Evaluated? && e.w == x && e.flipped then 1 else 0
  {
    LogAppended(log, e);
    if IsAlertOn(e, x) {
      OnsaleAlertsAppended(AlertsOn(log, x), e);
    }
    if EvalIn(e, x) != [] {
      assert (EvalsOf(log, x) + EvalIn(e, x))[..|EvalsOf(log, x)|] == EvalsOf(log, x);
    } else {
      assert EvalsOf(log, x) + EvalIn(e, x) == EvalsOf(log, x);
    }
  }

  /** A crash adds no alert and no evaluation. */
  lemma LostCounts(log: seq<Entry>, lost: seq<Entry>, x: int)
    requires lost == [] || (|lost| == 1 && lost[0].Abandoned?)
    ensures AlertCount(log + lost, x) == AlertCount(log, x) && EvalsOf(log + lost, x) == EvalsOf(log, x)
  {
    if lost == [] {
      assert log + lost == log;
    } else {
      EntryCounts(log, lost[0], x);
      assert lost == [lost[0]];
    }
  }

  function EvalFor(poll: Poll, row: ActiveWatch): Eval {
    Eval(VerdictFor(poll, row).statusOnsale, StatusOnsale in VerdictFor(poll, row).kinds)
  }

  lemma FlipNeedsOffSignal(p: Poll, row: ActiveWatch)
    ensures EvalFor(p, row).flipped ==> EvalFor(p, row).onsale && !row.lastEvaluation
  {
    VerdictReportsExactlyWhatIsDue(p.obs, PriorOf(p, row));
  }

  lemma NextKindIsWellPlaced(p: Poll, row: ActiveWatch, kinds: seq<Kind>, rows: seq<ActiveWatch>, closing: bool)
    requires DistinctRows([row] + rows) && DistinctKinds(kinds)
    requires forall k :: k in kinds ==> k in VerdictFor(p, row).kinds
    ensures var pc := NextKind(p, row, kinds, rows, closing);
            && IsWellPlaced(pc) && Left(pc) == kinds && HasRow(pc) && pc.row == row && pc.poll == p
            && Ledger.RowsOf(pc) == [row] + rows
  {
    assert kinds != [] ==> kinds == [kinds[0]] + kinds[1..];
  }

  /** A fresh verdict is well placed, and nothing of it is out. */
  lemma NextRowIsWellPlaced(p: Poll, rows: seq<ActiveWatch>, closing: bool)
    requires DistinctRows(rows)
    ensures IsWellPlaced(NextRow(p, rows, closing)) && forall x :: !FlipIsOut(NextRow(p, rows, closing), x)
  {
    if rows != [] {
      var v := VerdictFor(p, rows[0]);
      VerdictReportsExactlyWhatIsDue(p.obs, PriorOf(p, rows[0]));
      assert [rows[0]] + rows[1..] == rows;
      NextKindIsWellPlaced(p, rows[0], v.kinds, rows[1..], closing || v.closeWatch);
    }
  }

  /** One call keeps alerts, recorded flips and flips still out in balance; a poll that ends with a flip out leaves one alert more. */
  ghost predicate IsBalancedMove(l: Local, l': Local, x: int) {
    IsBalanced(l.log, l.pc, l'.log, l'.pc, x)
  }

  ghost predicate IsBalanced(log: seq<Entry>, pc: Pc, log': seq<Entry>, pc': Pc, x: int) {
    && IsWellPlaced(pc')
    && AlertCount(log', x) + FlipCount(log, x) + (if pc' == Done(false) then 0 else OutCount(pc, x))
       == AlertCount(log, x) + FlipCount(log', x) + OutCount(pc', x)
  }

  lemma DistinctTail(k: Kind, kinds: seq<Kind>)
    requires DistinctKinds([k] + kinds)
    ensures DistinctKinds(kinds) && k !in kinds
  {
    var all := [k] + kinds;
    assert forall i :: 0 <= i < |kinds| ==> all[i + 1] == kinds[i];
    forall i | 0 <= i < |kinds| ensures kinds[i] != k {
      assert all[0] != all[i + 1];
    }
  }

  lemma RestAreOthers(row: ActiveWatch, rows: seq<ActiveWatch>)
    requires DistinctRows([row] + rows)
    ensures forall q :: q in rows ==> q in [row] + rows && q.id != row.id
  {
    forall q | q in rows ensures q in [row] + rows && q.id != row.id {
      var i :| 0 <= i < |rows| && rows[i] == q;
      assert ([row] + rows)[i + 1] == q && ([row] + rows)[0] == row;
    }
  }

  /** Where the job stands once the kind in hand is settled. */
  ghost predicate IsSettledPc(pc: Pc, pc': Pc, x: int)
    requires pc.Claim? || pc.Deliver?
  {
    && IsWellPlaced(pc')
    && (FlipIsOut(pc', x) <==> FlipIsOut(pc, x) || (pc.row.id == x && pc.kind == StatusOnsale))
  }

  lemma KindSettled(pc: Pc, x: int)
    requires (pc.Claim? || pc.Deliver?) && IsWellPlaced(pc)
    ensures IsSettledPc(pc, NextKind(pc.poll, pc.row, pc.kinds, pc.rows, pc.closing), x)
  {
    DistinctTail(pc.kind, pc.kinds);
    assert pc.kind in Left(pc);
    NextKindIsWellPlaced(pc.poll, pc.row, pc.kinds, pc.rows, pc.closing);
  }

  /** A flip that is mailed or withheld is out from then on. */
  lemma FlipDelivered(log: seq<Entry>, pc: Pc, e: Entry, pc': Pc, x: int)
    requires pc.Deliver? && IsSettledPc(pc, pc', x) && HasRow(pc')
    requires (e.Sent? && e.row.id == pc.row.id && e.kind == pc.kind) || (e.Withheld? && e.w == pc.row.id && e.kind == pc.kind)
    ensures IsBalanced(log, pc, log + [e], pc', x)
  {
    EntryCounts(log, e, x);
    assert pc.kind in Left(pc);
  }

  lemma DeliverIsBalanced(job: nat, l: Local, at: Time, r: Reply, x: int)
    requires CanAnswer(l, r) && IsWellPlaced(l.pc) && l.pc.Deliver?
    ensures IsBalancedMove(l, Advance(job, l, at, r), x)
  {
    var pc := l.pc;
    if MayMail(pc.row) {
      DistinctTail(pc.kind, pc.kinds);
      assert pc.kind in Left(pc);
      FlipDelivered(l.log, pc, Sent(job, pc.row, pc.kind), Mark(pc.poll, pc.row, pc.kinds, pc.rows, pc.closing), x);
    } else {
      KindSettled(pc, x);
      FlipDelivered(l.log, pc, Withheld(job, pc.row.id, pc.kind), NextKind(pc.poll, pc.row, pc.kinds, pc.rows, pc.closing), x);
    }
  }

  lemma EvaluationCounts(log: seq<Entry>, job: nat, w: int, onsale: bool, flipped: bool, x: int)
    ensures var after := log + [Evaluated(job, w, onsale, flipped)];
            && AlertCount(after, x) == AlertCount(log, x)
            && FlipCount(after, x) == FlipCount(log, x) + (if w == x && flipped then 1 else 0)
            && EvalsOf(after, x) == EvalsOf(log, x) + (if w == x then [Eval(onsale, flipped)] else [])
  {
    EntryCounts(log, Evaluated(job, w, onsale, flipped), x);
  }

  lemma RecordPlaces(pc: Pc, x: int)
    requires pc.Record? && IsWellPlaced(pc)
    ensures IsWellPlaced(NextRow(pc.poll, pc.rows, pc.closing)) && OutCount(NextRow(pc.poll, pc.rows, pc.closing), x) == 0
    ensures OutCount(pc, x) == if pc.row.id == x && StatusOnsale in VerdictFor(pc.poll, pc.row).kinds then 1 else 0
  {
    assert forall i :: 0 <= i < |pc.rows| ==> ([pc.row] + pc.rows)[i + 1] == pc.rows[i];
    NextRowIsWellPlaced(pc.poll, pc.rows, pc.closing);
  }

  lemma RecordedIsBalanced(job: nat, log: seq<Entry>, pc: Pc, v: Verdict, x: int)
    requires pc.Record? && IsWellPlaced(pc) && v == VerdictFor(pc.poll, pc.row)
    ensures IsBalanced(log, pc, log + [Evaluated(job, pc.row.id, v.statusOnsale, StatusOnsale in v.kinds)],
                       NextRow(pc.poll, pc.rows, pc.closing), x)
  {
    var flipped := StatusOnsale in v.kinds;
    var after, next := log + [Evaluated(job, pc.row.id, v.statusOnsale, flipped)], NextRow(pc.poll, pc.rows, pc.closing);
    EvaluationCounts(log, job, pc.row.id, v.statusOnsale, flipped, x);
    RecordPlaces(pc, x);
    NotFailed(pc.poll, pc.rows, pc.closing);
  }

  lemma NotFailed(p: Poll, rows: seq<ActiveWatch>, closing: bool)
    ensures NextRow(p, rows, closing) != Done(false)
  {
  }

  lemma RecordIsBalanced(job: nat, l: Local, at: Time, r: Reply, x: int)
    requires CanAnswer(l, r) && IsWellPlaced(l.pc) && l.pc.Record?
    ensures IsBalancedMove(l, Advance(job, l, at, r), x)
  {
    if r.Ok? {
      RecordedIsBalanced(job, l.log, l.pc, VerdictFor(l.pc.poll, l.pc.row), x);
    }
  }

  /** Claims concern no flip. */
  lemma ClaimLeavesFlips(log: seq<Entry>, pc: Pc, log': seq<Entry>, pc': Pc, job: nat, x: int)
    requires pc.Claim? && (log' == log || log' == log + [Won(job, pc.row.id, pc.kind)])
    requires IsWellPlaced(pc') && HasRow(pc') && OutCount(pc', x) == OutCount(pc, x)
    ensures IsBalanced(log, pc, log', pc', x)
  {
    EntryCounts(log, Won(job, pc.row.id, pc.kind), x);
  }

  lemma ClaimIsBalanced(job: nat, l: Local, at: Time, r: Reply, x: int)
    requires CanAnswer(l, r) && IsWellPlaced(l.pc) && l.pc.Claim? && l.pc.kind != StatusOnsale
    ensures IsBalancedMove(l, Advance(job, l, at, r), x)
  {
    if r.Ok? {
      var l' := Advance(job, l, at, r);
      KindSettled(l.pc, x);
      ClaimLeavesFlips(l.log, l.pc, l'.log, l'.pc, job, x);
    }
  }

  lemma MoveIsBalanced(job: nat, l: Local, at: Time, r: Reply, x: int)
    requires CanAnswer(l, r) && IsWellPlaced(l.pc) && (l.pc.Claim? ==> l.pc.kind != StatusOnsale)
    ensures IsBalancedMove(l, Advance(job, l, at, r), x)
  {
    if l.pc.Claim? {
      ClaimIsBalanced(job, l, at, r, x);
    } else if l.pc.Deliver? {
      DeliverIsBalanced(job, l, at, r, x);
    } else if l.pc.Record? {
      RecordIsBalanced(job, l, at, r, x);
    } else {
      QuietIsBalanced(job, l, at, r, x);
    }
  }

  /** The calls that log nothing. */
  lemma QuietIsBalanced(job: nat, l: Local, at: Time, r: Reply, x: int)
    requires CanAnswer(l, r) && IsWellPlaced(l.pc) && !l.pc.Claim? && !l.pc.Deliver? && !l.pc.Record?
    ensures IsBalancedMove(l, Advance(job, l, at, r), x)
  {
    if l.pc.Mark? && r.Ok? {
      NextKindIsWellPlaced(l.pc.poll, l.pc.row, l.pc.kinds, l.pc.rows, l.pc.closing);
    } else if l.pc.List? && r.Rows? {
      NextRowIsWellPlaced(l.pc.poll, r.rows, false);
    }
  }

  /** Only storing the signal adds an evaluation, and it adds what it stores. */
  lemma MoveEvaluates(job: nat, l: Local, at: Time, r: Reply, x: int)
    requires CanAnswer(l, r)
    ensures var l' := Advance(job, l, at, r);
            if l.pc.Record? && r.Ok? && l.pc.row.id == x
            then EvalsOf(l'.log, x) == EvalsOf(l.log, x) + [EvalFor(l.pc.poll, l.pc.row)]
            else EvalsOf(l'.log, x) == EvalsOf(l.log, x)
  {
    var l' := Advance(job, l, at, r);
    if l.pc.Record? {
      var v := VerdictFor(l.pc.poll, l.pc.row);
      EvaluationCounts(l.log, job, l.pc.row.id, v.statusOnsale, StatusOnsale in v.kinds, x);
    } else if l.pc.Claim? {
      EntryCounts(l.log, Won(job, l.pc.row.id, l.pc.kind), x);
    } else if l.pc.Deliver? {
      EntryCounts(l.log, if MayMail(l.pc.row) then Sent(job, l.pc.row, l.pc.kind) else Withheld(job, l.pc.row.id, l.pc.kind), x);
    }
  }
}
