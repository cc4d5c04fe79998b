/**
 Any number of jobs over the same tables, interleaved one call at a time with each
 other, with crashes and with everything users do meanwhile. The scheduler may
 enqueue an event that is already being polled, so two jobs may hold the same
 event; the watch_alerts table is what keeps each milestone to one alert.
 */
module ClaimLedger {
  import opened Basics
  import opened Evaluator
  import opened AlertStore
  import opened AlertEngine

  datatype System = System(db: Db, log: seq<Entry>, jobs: map<nat, Pc>, nextJob: nat)

  datatype Label =
    | Begin(eventId: int)
    | Move(job: nat, at: Time, reply: Reply)
    | Crash(job: nat)
    | UserDoes(act: Act)

  ghost predicate CanDo(s: System, l: Label) {
    match l
    case Begin(_) => true
    case Move(j, _, r) => j in s.jobs && CanAnswer(Local(s.db, s.log, s.jobs[j]), r)
    case Crash(j) => j in s.jobs && !s.jobs[j].Done?
    case UserDoes(_) => true
  }

  /** What a crash of the job leaves in the log: a claimed kind that is never settled. */
  function LostBy(j: nat, pc: Pc): seq<Entry> {
    match pc
    case Deliver(_, row, k, _, _, _) => [Abandoned(j, row.id, k)]
    case _ => []
  }

  function Do(s: System, l: Label): System {
    match l
    case Begin(e) => s.(jobs := s.jobs[s.nextJob := Get(e)], nextJob := s.nextJob + 1)
    case Move(j, at, r) =>
      if j !in s.jobs then s
      else
        var a := Advance(j, Local(s.db, s.log, s.jobs[j]), at, r);
        s.(db := a.db, log := a.log, jobs := s.jobs[j := a.pc])
    case Crash(j) =>
      if j !in s.jobs then s
      else
        s.(log := s.log + LostBy(j, s.jobs[j]), jobs := s.jobs[j := Done(false)])
    case UserDoes(a) => s.(db := Perform(s.db, a))
  }

  function Run(s: System, ls: seq<Label>): System {
    if ls == [] then s else Do(Run(s, ls[..|ls| - 1]), ls[|ls| - 1])
  }

  ghost predicate IsRun(s: System, ls: seq<Label>) {
    forall i {:trigger CanDo(Run(s, ls[..i]), ls[i])} :: 0 <= i < |ls| ==> CanDo(Run(s, ls[..i]), ls[i])
  }

  /** A process that has just come up over tables of any consistent content. */
  ghost predicate Fresh(s: System) {
    Consistent(s.db) && s.log == [] && s.jobs == map[] && s.nextJob == 0
  }

  lemma IsRunPrefix(s: System, ls: seq<Label>, n: nat)
    requires IsRun(s, ls) && n <= |ls|
    ensures IsRun(s, ls[..n])
  {
    forall i | 0 <= i < n ensures CanDo(Run(s, ls[..n][..i]), ls[..n][i]) {
      assert ls[..n][..i] == ls[..i];
    }
  }

  lemma IsRunExtend(s: System, ls: seq<Label>, l: Label)
    requires IsRun(s, ls) && CanDo(Run(s, ls), l)
    ensures IsRun(s, ls + [l]) && Run(s, ls + [l]) == Do(Run(s, ls), l)
  {
    var more := ls + [l];
    assert more[..|ls|] == ls;
    forall i | 0 <= i < |more| ensures CanDo(Run(s, more[..i]), more[i]) {
      if i < |ls| {
        assert more[..i] == ls[..i];
      }
    }
  }

  // ---- reading the log ----

  datatype Fate = Delivered | Suppressed | Lost

  /** How often a job won the claim on a (watch, kind) pair. */
  function Wins(log: seq<Entry>, j: nat, w: int, k: Kind): nat {
    if log == [] then 0
    else Wins(log[..|log| - 1], j, w, k) + if log[|log| - 1] == Won(j, w, k) then 1 else 0
  }

  function FateOf(e: Entry, j: nat, w: int, k: Kind): seq<Fate> {
    match e
    case Sent(j', row, k') => if (j', row.id, k') == (j, w, k) then [Delivered] else []
    case Withheld(j', w', k') => if (j', w', k') == (j, w, k) then [Suppressed] else []
    case Abandoned(j', w', k') => if (j', w', k') == (j, w, k) then [Lost] else []
    case _ => []
  }

  /** What a job did with a pair, in order. */
  function Fates(log: seq<Entry>, j: nat, w: int, k: Kind): seq<Fate> {
    if log == [] then [] else Fates(log[..|log| - 1], j, w, k) + FateOf(log[|log| - 1], j, w, k)
  }

  lemma ReadAppended(log: seq<Entry>, e: Entry)
    ensures forall j, w, k :: Wins(log + [e], j, w, k) == Wins(log, j, w, k) + if e == Won(j, w, k) then 1 else 0
    ensures forall j, w, k :: Fates(log + [e], j, w, k) == Fates(log, j, w, k) + FateOf(e, j, w, k)
  {
    assert (log + [e])[..|log|] == log;
  }

  /** The pair an entry of the log settles: an alert sent, withheld, or lost with its job. */
  function PairOf(e: Entry): Option<(nat, int, Kind)> {
    match e
    case Sent(j, row, k) => Some((j, row.id, k))
    case Withheld(j, w, k) => Some((j, w, k))
    case Abandoned(j, w, k) => Some((j, w, k))
    case _ => None
  }

  predicate Holds(pc: Pc, w: int, k: Kind) {
    pc.Deliver? && pc.kind != StatusOnsale && pc.row.id == w && pc.kind == k
  }

  function Held(s: System, j: nat, w: int, k: Kind): nat {
    if j in s.jobs && Holds(s.jobs[j], w, k) then 1 else 0
  }

  // ---- the ledger ----

  /** Every claim won is held or has exactly one fate, and no job wins twice. */
  ghost predicate Balanced(s: System) {
    forall j, w, k :: k != StatusOnsale ==>
      |Fates(s.log, j, w, k)| + Held(s, j, w, k) == Wins(s.log, j, w, k) <= 1
  }

  /** No two jobs win the same pair. */
  ghost predicate SingleWinner(s: System) {
    forall j1, j2, w, k :: k != StatusOnsale && Wins(s.log, j1, w, k) > 0 && Wins(s.log, j2, w, k) > 0 ==> j1 == j2
  }

  /** A pair once won stays claimed for as long as its watch exists, and ids are not reused. */
  ghost predicate StaysClaimed(s: System) {
    forall j, w, k :: k != StatusOnsale && Wins(s.log, j, w, k) > 0 ==>
      w < s.db.nextWatchId && (w in s.db.watches ==> (w, k) in s.db.claims)
  }

  ghost predicate LedgerInv(s: System) {
    && Consistent(s.db)
    && JobsNumbered(s)
    && Balanced(s) && SingleWinner(s) && StaysClaimed(s)
  }

  /** What one call does to the log and to the pair the job holds. */
  lemma MoveEffect(job: nat, l: Local, at: Time, r: Reply)
    requires CanAnswer(l, r)
    ensures var l' := Advance(job, l, at, r);
            || (l'.log == l.log && forall w, k :: !Holds(l.pc, w, k) && !Holds(l'.pc, w, k))
            || (&& l.pc.Claim? && l.pc.row.id in l.db.watches && (l.pc.row.id, l.pc.kind) !in l.db.claims
                && l'.log == l.log + [Won(job, l.pc.row.id, l.pc.kind)]
                && (l.pc.row.id, l.pc.kind) in l'.db.claims
                && forall w, k :: Holds(l'.pc, w, k) <==> k != StatusOnsale && w == l.pc.row.id && k == l.pc.kind)
            || (&& l.pc.Deliver?
                && (l'.log == l.log + [Sent(job, l.pc.row, l.pc.kind)]
                    || l'.log == l.log + [Withheld(job, l.pc.row.id, l.pc.kind)])
                && forall w, k :: !Holds(l'.pc, w, k))
            || (&& l.pc.Record? && |l'.log| == |l.log| + 1 && l'.log[|l.log|].Evaluated?
                && l'.log == l.log + [l'.log[|l.log|]] && forall w, k :: !Holds(l'.pc, w, k))
  {
  }

  lemma MoveKeepsTables(job: nat, l: Local, at: Time, r: Reply)
    requires Consistent(l.db) && CanAnswer(l, r)
    ensures var l' := Advance(job, l, at, r);
            && Consistent(l'.db) && l'.db.nextWatchId == l.db.nextWatchId
            && l'.db.watches.Keys == l.db.watches.Keys && l.db.claims <= l'.db.claims
            && l'.db.events.Keys == l.db.events.Keys
  {
  }

  /** Live claims stay, and ids below the counter never come back. */
  ghost predicate KeepsClaims(db: Db, db': Db) {
    && Consistent(db') && db.nextWatchId <= db'.nextWatchId
    && (forall w :: w < db.nextWatchId && w in db'.watches ==> w in db.watches)
    && (forall w, k :: w in db'.watches && (w, k) in db.claims ==> (w, k) in db'.claims)
  }

  ghost predicate SameHolders(s: System, s': System) {
    forall j, w, k :: Held(s', j, w, k) == Held(s, j, w, k)
  }

  ghost predicate JobsNumbered(s: System) {
    forall j :: j in s.jobs ==> j < s.nextJob
  }

  lemma QuietKeepsLedger(s: System, s': System)
    requires LedgerInv(s) && KeepsClaims(s.db, s'.db) && SameHolders(s, s') && JobsNumbered(s')
    requires s'.log == s.log || (|s'.log| == |s.log| + 1 && s'.log == s.log + [s'.log[|s.log|]] && s'.log[|s.log|].Evaluated?)
    ensures LedgerInv(s')
  {
    if s'.log != s.log {
      ReadAppended(s.log, s'.log[|s.log|]);
    }
  }

  lemma WinKeepsLedger(s: System, s': System, job: nat, w: int, k: Kind)
    requires LedgerInv(s) && KeepsClaims(s.db, s'.db) && JobsNumbered(s')
    requires w in s.db.watches && (w, k) !in s.db.claims && (w, k) in s'.db.claims
    requires s'.log == s.log + [Won(job, w, k)]
    requires forall j: nat, w', k' :: k' != StatusOnsale && (j, w', k') != (job, w, k) ==> Held(s', j, w', k') == Held(s, j, w', k')
    requires k != StatusOnsale ==> Held(s', job, w, k) == 1
    ensures LedgerInv(s')
  {
    ReadAppended(s.log, Won(job, w, k));
    assert k != StatusOnsale ==> forall j :: Wins(s.log, j, w, k) == 0;
    assert Balanced(s') by {
      forall j, w', k' | k' != StatusOnsale
        ensures |Fates(s'.log, j, w', k')| + Held(s', j, w', k') == Wins(s'.log, j, w', k') <= 1
      {
        assert |Fates(s.log, j, w', k')| + Held(s, j, w', k') == Wins(s.log, j, w', k') <= 1;
      }
    }
  }

  lemma SettleKeepsLedger(s: System, s': System, job: nat, w: int, k: Kind, e: Entry)
    requires LedgerInv(s) && KeepsClaims(s.db, s'.db) && JobsNumbered(s')
    requires s'.log == s.log + [e] && PairOf(e) == Some((job, w, k))
    requires forall j: nat, w', k' :: k' != StatusOnsale && (j, w', k') != (job, w, k) ==> Held(s', j, w', k') == Held(s, j, w', k')
    requires k != StatusOnsale ==> Held(s, job, w, k) == 1 && Held(s', job, w, k) == 0
    ensures LedgerInv(s')
  {
    ReadAppended(s.log, e);
    assert Balanced(s') by {
      forall j, w', k' | k' != StatusOnsale
        ensures |Fates(s'.log, j, w', k')| + Held(s', j, w', k') == Wins(s'.log, j, w', k') <= 1
      {
        assert |Fates(s.log, j, w', k')| + Held(s, j, w', k') == Wins(s.log, j, w', k') <= 1;
      }
    }
  }

  lemma MoveKeepsLedger(s: System, job: nat, at: Time, r: Reply)
    requires LedgerInv(s) && CanDo(s, Move(job, at, r))
    ensures LedgerInv(Do(s, Move(job, at, r)))
  {
    var l := Local(s.db, s.log, s.jobs[job]);
    var l' := Advance(job, l, at, r);
    var s' := Do(s, Move(job, at, r));
    MoveEffect(job, l, at, r);
    MoveKeepsTables(job, l, at, r);
    if l.pc.Deliver? {
      SettleKeepsLedger(s, s', job, l.pc.row.id, l.pc.kind, l'.log[|l.log|]);
    } else if l.pc.Claim? && l'.log != l.log {
      WinKeepsLedger(s, s', job, l.pc.row.id, l.pc.kind);
    } else {
      QuietKeepsLedger(s, s');
    }
  }

  lemma CrashKeepsLedger(s: System, job: nat)
    requires LedgerInv(s) && CanDo(s, Crash(job))
    ensures LedgerInv(Do(s, Crash(job)))
  {
    var s' := Do(s, Crash(job));
    if s.jobs[job].Deliver? {
      var w, k := s.jobs[job].row.id, s.jobs[job].kind;
      SettleKeepsLedger(s, s', job, w, k, Abandoned(job, w, k));
    } else {
      assert s'.log == s.log;
      QuietKeepsLedger(s, s');
    }
  }

  lemma DoKeepsLedger(s: System, l: Label)
    requires LedgerInv(s) && CanDo(s, l)
    ensures LedgerInv(Do(s, l))
  {
    match l
    case Begin(_) => QuietKeepsLedger(s, Do(s, l));
    case Move(j, at, r) => MoveKeepsLedger(s, j, at, r);
    case Crash(j) => CrashKeepsLedger(s, j);
    case UserDoes(a) =>
      PerformKeepsConsistent(s.db, a);
      QuietKeepsLedger(s, Do(s, l));
  }

  lemma {:induction false} LedgerHolds(s: System, ls: seq<Label>)
    requires Fresh(s) && IsRun(s, ls)
    ensures LedgerInv(Run(s, ls))
  {
    if ls == [] {
    } else {
      var n := |ls| - 1;
      IsRunPrefix(s, ls, n);
      LedgerHolds(s, ls[..n]);
      DoKeepsLedger(Run(s, ls[..n]), ls[n]);
    }
  }

  // ---- what the ledger says about a whole run ----

  predicate Settles(e: Entry, j: nat, w: int, k: Kind) {
    FateOf(e, j, w, k) != []
  }

  lemma {:induction false} FateIsCounted(log: seq<Entry>, i: nat, j: nat, w: int, k: Kind)
    requires i < |log| && Settles(log[i], j, w, k)
    ensures FateOf(log[i], j, w, k)[0] in Fates(log, j, w, k)
    ensures |Fates(log[..i], j, w, k)| < |Fates(log, j, w, k)|
  {
    var n := |log| - 1;
    if i < n {
      assert log[..n][..i] == log[..i];
      FateIsCounted(log[..n], i, j, w, k);
    }
  }

  lemma {:induction false} WinIsCounted(log: seq<Entry>, i: nat)
    requires i < |log| && log[i].Won?
    ensures Wins(log, log[i].job, log[i].w, log[i].kind) > 0
  {
    if i < |log| - 1 {
      WinIsCounted(log[..|log| - 1], i);
    }
  }

  lemma SettledPairsAreDistinct(s: System, a: nat, b: nat)
    requires LedgerInv(s) && a < b < |s.log|
    requires PairOf(s.log[a]).Some? && PairOf(s.log[b]).Some? && PairOf(s.log[a]).value.2 != StatusOnsale
    ensures (PairOf(s.log[a]).value.1, PairOf(s.log[a]).value.2) != (PairOf(s.log[b]).value.1, PairOf(s.log[b]).value.2)
  {
    var (ja, w, k) := PairOf(s.log[a]).value;
    var (jb, w', k') := PairOf(s.log[b]).value;
    if w == w' && k == k' {
      FateIsCounted(s.log, a, ja, w, k);
      FateIsCounted(s.log, b, jb, w, k);
      assert Wins(s.log, ja, w, k) > 0 && Wins(s.log, jb, w, k) > 0;
      assert s.log[..b][a] == s.log[a];
      FateIsCounted(s.log[..b], a, ja, w, k);
      assert false;
    }
  }

  /**
   However the jobs interleave, whatever fails and whatever users do, no watch is
   told twice about a milestone that is claimed, and a milestone once withheld for
   lack of consent (or lost in a crash) is never delivered, not even after the
   owner verifies the address or subscribes again.
   */
  lemma EachMilestoneSettledOnce(s: System, ls: seq<Label>)
    requires Fresh(s) && IsRun(s, ls)
    ensures var log := Run(s, ls).log;
            forall a, b | 0 <= a < b < |log| && PairOf(log[a]).Some? && PairOf(log[b]).Some? ::
              PairOf(log[a]).value.2 != StatusOnsale ==>
              (PairOf(log[a]).value.1, PairOf(log[a]).value.2) != (PairOf(log[b]).value.1, PairOf(log[b]).value.2)
  {
    LedgerHolds(s, ls);
    var end := Run(s, ls);
    forall a, b | 0 <= a < b < |end.log| && PairOf(end.log[a]).Some? && PairOf(end.log[b]).Some?
                  && PairOf(end.log[a]).value.2 != StatusOnsale
      ensures (PairOf(end.log[a]).value.1, PairOf(end.log[a]).value.2)
           != (PairOf(end.log[b]).value.1, PairOf(end.log[b]).value.2)
    {
      SettledPairsAreDistinct(end, a, b);
    }
  }

  /** No job is about to claim a flip, and no claim on one has been won or added to `before`. */
  ghost predicate ClaimsNoFlip(before: Db, s: System) {
    && (forall j :: j in s.jobs && s.jobs[j].Claim? ==> s.jobs[j].kind != StatusOnsale)
    && (forall e :: e in s.log && e.Won? ==> e.kind != StatusOnsale)
    && (forall w :: (w, StatusOnsale) in s.db.claims ==> (w, StatusOnsale) in before.claims)
  }

  lemma StepClaimsNoFlip(before: Db, s: System, l: Label)
    requires ClaimsNoFlip(before, s) && CanDo(s, l)
    ensures ClaimsNoFlip(before, Do(s, l))
  {
    if l.Move? {
      MoveClaimsNoFlip(l.job, Local(s.db, s.log, s.jobs[l.job]), l.at, l.reply);
    }
  }

  lemma MoveClaimsNoFlip(job: nat, l: Local, at: Time, r: Reply)
    requires CanAnswer(l, r) && (l.pc.Claim? ==> l.pc.kind != StatusOnsale)
    ensures var l' := Advance(job, l, at, r);
            && (l'.pc.Claim? ==> l'.pc.kind != StatusOnsale)
            && (forall e :: e in l'.log && e.Won? ==> e in l.log || e.kind != StatusOnsale)
            && (forall w :: (w, StatusOnsale) in l'.db.claims ==> (w, StatusOnsale) in l.db.claims)
  {
  }

  /**
   The other half: an on-sale flip is never claimed, so the next one is not stopped
   by a claim that an earlier one left behind.
   */
  lemma {:induction false} FlipIsNeverClaimed(s: System, ls: seq<Label>)
    requires Fresh(s) && IsRun(s, ls)
    ensures ClaimsNoFlip(s.db, Run(s, ls))
  {
    if ls != [] {
      var n := |ls| - 1;
      IsRunPrefix(s, ls, n);
      FlipIsNeverClaimed(s, ls[..n]);
      StepClaimsNoFlip(s.db, Run(s, ls[..n]), ls[n]);
    }
  }

  /**
   Conservation of claims: whoever won a claim still holds it or has done exactly
   one thing with it, and nobody else ever touched the pair.
   */
  lemma EveryWinIsAccountedFor(s: System, ls: seq<Label>, i: nat)
    requires Fresh(s) && IsRun(s, ls)
    requires i < |Run(s, ls).log| && Run(s, ls).log[i].Won?
    ensures AccountedFor(Run(s, ls), Run(s, ls).log[i].job, Run(s, ls).log[i].w, Run(s, ls).log[i].kind)
  {
    LedgerHolds(s, ls);
    FlipIsNeverClaimed(s, ls);
    WinIsCounted(Run(s, ls).log, i);
    WinnerAccountsFor(Run(s, ls), Run(s, ls).log[i].job, Run(s, ls).log[i].w, Run(s, ls).log[i].kind);
  }

  ghost predicate AccountedFor(s: System, j: nat, w: int, k: Kind) {
    && (Held(s, j, w, k) == 0 <==> |Fates(s.log, j, w, k)| == 1)
    && (Held(s, j, w, k) == 1 <==> Fates(s.log, j, w, k) == [])
    && forall j' :: j' != j ==> Fates(s.log, j', w, k) == [] && Held(s, j', w, k) == 0
  }

  lemma WinnerAccountsFor(s: System, j: nat, w: int, k: Kind)
    requires LedgerInv(s) && k != StatusOnsale && Wins(s.log, j, w, k) > 0
    ensures AccountedFor(s, j, w, k)
  {
    assert |Fates(s.log, j, w, k)| + Held(s, j, w, k) == 1;
    forall j' | j' != j ensures Fates(s.log, j', w, k) == [] && Held(s, j', w, k) == 0 {
      assert Wins(s.log, j', w, k) == 0;
    }
  }

  /** Every settled entry comes after the win it settles. */
  ghost predicate WonBefore(log: seq<Entry>) {
    forall i :: 0 <= i < |log| && PairOf(log[i]).Some? && PairOf(log[i]).value.2 != StatusOnsale ==> WonBy(log, i)
  }

  ghost predicate WonBy(log: seq<Entry>, i: nat)
    requires i < |log| && PairOf(log[i]).Some?
  {
    var (j, w, k) := PairOf(log[i]).value;
    exists n :: 0 <= n < i && log[n] == Won(j, w, k)
  }

  lemma WonBeforeAppended(log: seq<Entry>, e: Entry)
    requires WonBefore(log)
    requires PairOf(e).Some? && PairOf(e).value.2 != StatusOnsale ==>
               var (j, w, k) := PairOf(e).value; Won(j, w, k) in log
    ensures WonBefore(log + [e])
  {
    var more := log + [e];
    forall i | 0 <= i < |more| && PairOf(more[i]).Some? && PairOf(more[i]).value.2 != StatusOnsale ensures WonBy(more, i) {
      var (j, w, k) := PairOf(more[i]).value;
      if i < |log| {
        assert WonBy(log, i);
        var n :| 0 <= n < i && log[n] == Won(j, w, k);
        assert more[n] == Won(j, w, k);
      } else {
        var n :| 0 <= n < |log| && log[n] == Won(j, w, k);
        assert more[n] == Won(j, w, k);
      }
    }
  }

  lemma StepKeepsWonBefore(s: System, l: Label)
    requires LedgerInv(s) && CanDo(s, l) && WonBefore(s.log)
    ensures WonBefore(Do(s, l).log)
  {
    if Do(s, l).log != s.log {
      var j := l.job;
      if s.jobs[j].Deliver? && s.jobs[j].kind != StatusOnsale {
        assert |Fates(s.log, j, s.jobs[j].row.id, s.jobs[j].kind)| + Held(s, j, s.jobs[j].row.id, s.jobs[j].kind) == Wins(s.log, j, s.jobs[j].row.id, s.jobs[j].kind);
        WinIsLogged(s.log, j, s.jobs[j].row.id, s.jobs[j].kind);
      }
      if l.Move? {
        MoveEffect(j, Local(s.db, s.log, s.jobs[j]), l.at, l.reply);
      }
      WonBeforeAppended(s.log, Do(s, l).log[|s.log|]);
    }
  }

  /** Nothing is settled unless the same job won it at an earlier place of the log. */
  lemma {:induction false} NothingSettledUnclaimed(s: System, ls: seq<Label>)
    requires Fresh(s) && IsRun(s, ls)
    ensures WonBefore(Run(s, ls).log)
  {
    if ls != [] {
      var n := |ls| - 1;
      IsRunPrefix(s, ls, n);
      NothingSettledUnclaimed(s, ls[..n]);
      LedgerHolds(s, ls[..n]);
      StepKeepsWonBefore(Run(s, ls[..n]), ls[n]);
    }
  }

  lemma {:induction false} WinIsLogged(log: seq<Entry>, j: nat, w: int, k: Kind)
    requires Wins(log, j, w, k) > 0
    ensures Won(j, w, k) in log
  {
    var n := |log| - 1;
    if log[n] != Won(j, w, k) {
      WinIsLogged(log[..n], j, w, k);
      assert forall e :: e in log[..n] ==> e in log;
    }
  }

  // ---- consent ----

  function RowsOf(pc: Pc): seq<ActiveWatch> {
    match pc
    case Claim(_, row, _, _, rows, _) => [row] + rows
    case Deliver(_, row, _, _, rows, _) => [row] + rows
    case Mark(_, row, _, rows, _) => [row] + rows
    case Record(_, row, rows, _) => [row] + rows
    case _ => []
  }

  /** The row was in the tables at this moment, belonging to an active watch. */
  predicate ListedIn(db: Db, r: ActiveWatch) {
    IsRowOf(db, r) && db.watches[r.id].status == Active
  }

  ghost predicate ListedDuring(s: System, ls: seq<Label>, r: ActiveWatch) {
    exists n :: 0 <= n <= |ls| && ListedIn(Run(s, ls[..n]).db, r)
  }

  ghost predicate OnlyListedRows(s: System, ls: seq<Label>) {
    && (forall j, r :: j in Run(s, ls).jobs && r in RowsOf(Run(s, ls).jobs[j]) ==> ListedDuring(s, ls, r))
    && (forall i :: 0 <= i < |Run(s, ls).log| && Run(s, ls).log[i].Sent? ==>
          MayMail(Run(s, ls).log[i].row) && ListedDuring(s, ls, Run(s, ls).log[i].row))
  }

  lemma ListedStays(s: System, ls: seq<Label>, n: nat, r: ActiveWatch)
    requires n <= |ls| && ListedDuring(s, ls[..n], r)
    ensures ListedDuring(s, ls, r)
  {
    var m :| 0 <= m <= |ls[..n]| && ListedIn(Run(s, ls[..n][..m]).db, r);
    assert ls[..n][..m] == ls[..m];
  }

  lemma NextRowsAreRows(p: Poll, rows: seq<ActiveWatch>, closing: bool)
    ensures forall r :: r in RowsOf(NextRow(p, rows, closing)) ==> r in rows
  {
  }

  /** A job only carries rows it already carried or has just listed. */
  lemma MoveCarriesListedRows(job: nat, l: Local, at: Time, r: Reply)
    requires CanAnswer(l, r)
    ensures forall row :: row in RowsOf(Advance(job, l, at, r).pc) ==> row in RowsOf(l.pc) || ListedIn(l.db, row)
    ensures forall i :: |l.log| <= i < |Advance(job, l, at, r).log| && Advance(job, l, at, r).log[i].Sent? ==>
              Advance(job, l, at, r).log[i].row in RowsOf(l.pc) && MayMail(Advance(job, l, at, r).log[i].row)
  {
    if l.pc.List? && r.Rows? {
      NextRowsAreRows(l.pc.poll, r.rows, false);
    } else if l.pc.Record? {
      NextRowsAreRows(l.pc.poll, l.pc.rows, l.pc.closing);
    }
  }

  lemma LogOnlyGrows(s: System, l: Label)
    requires CanDo(s, l)
    ensures s.log <= Do(s, l).log
  {
  }

  lemma {:induction false} RowsWereListed(s: System, ls: seq<Label>)
    requires Fresh(s) && IsRun(s, ls)
    ensures OnlyListedRows(s, ls)
  {
    if ls != [] {
      var n := |ls| - 1;
      IsRunPrefix(s, ls, n);
      RowsWereListed(s, ls[..n]);
      var before, after := Run(s, ls[..n]), Run(s, ls);
      var l := ls[n];
      LogOnlyGrows(before, l);
      if l.Move? {
        MoveCarriesListedRows(l.job, Local(before.db, before.log, before.jobs[l.job]), l.at, l.reply);
      }
      forall j, r | j in after.jobs && r in RowsOf(after.jobs[j]) ensures ListedDuring(s, ls, r) {
        if j in before.jobs && r in RowsOf(before.jobs[j]) {
          ListedStays(s, ls, n, r);
        } else {
          assert ListedIn(before.db, r);
        }
      }
      forall i | 0 <= i < |after.log| && after.log[i].Sent?
        ensures MayMail(after.log[i].row) && ListedDuring(s, ls, after.log[i].row)
      {
        if i < |before.log| {
          assert after.log[i] == before.log[i];
        }
        ListedStays(s, ls, n, after.log[i].row);
      }
    }
  }

  /**
   No alert without consent: the owner of every alert sent was verified and
   subscribed, and the watch active, at some earlier moment of the same run, the
   moment the job listed the watch. (Consent withdrawn between listing and
   sending is not seen.)
   */
  lemma AlertsHadConsent(s: System, ls: seq<Label>, i: nat)
    requires Fresh(s) && IsRun(s, ls) && i < |Run(s, ls).log| && Run(s, ls).log[i].Sent?
    ensures var row := Run(s, ls).log[i].row;
            row.verified && !row.unsubscribed
            && exists n :: 0 <= n <= |ls| && ListedIn(Run(s, ls[..n]).db, row) && Consents(Run(s, ls[..n]).db, row.id, row.userId)
  {
    RowsWereListed(s, ls);
    var row := Run(s, ls).log[i].row;
    var n :| 0 <= n <= |ls| && ListedIn(Run(s, ls[..n]).db, row);
    assert Consents(Run(s, ls[..n]).db, row.id, row.userId);
  }

  /** The watch is active, and this is its owner, who is verified and has not unsubscribed. */
  predicate Consents(db: Db, w: int, owner: int) {
    && w in db.watches && db.watches[w].status == Active && db.watches[w].userId == owner
    && owner in db.users && db.users[owner].verified && !db.users[owner].unsubscribed
  }

  // ---- one job inside the system ----

  function MovesOf(job: nat, steps: seq<Step>): seq<Label> {
    seq(|steps|, i requires 0 <= i < |steps| => Move(job, steps[i].at, steps[i].reply))
  }

  function With(s: System, job: nat, l: Local): System {
    s.(db := l.db, log := l.log, jobs := s.jobs[job := l.pc])
  }

  /** What a job does undisturbed is a run of the system, so the ledger covers it. */
  lemma {:induction false} SoloJobIsARun(s: System, job: nat, steps: seq<Step>, end: Local)
    requires job in s.jobs && JobRun(job, Local(s.db, s.log, s.jobs[job]), steps) == Some(end)
    ensures IsRun(s, MovesOf(job, steps)) && Run(s, MovesOf(job, steps)) == With(s, job, end)
  {
    var l := Local(s.db, s.log, s.jobs[job]);
    if steps == [] {
      assert MovesOf(job, steps) == [];
      assert s.jobs[job := s.jobs[job]] == s.jobs;
    } else {
      var n := |steps| - 1;
      var before := JobRun(job, l, steps[..n]).value;
      SoloJobIsARun(s, job, steps[..n], before);
      assert MovesOf(job, steps) == MovesOf(job, steps[..n]) + [Move(job, steps[n].at, steps[n].reply)];
      assert Local(With(s, job, before).db, With(s, job, before).log, With(s, job, before).jobs[job]) == before;
      IsRunExtend(s, MovesOf(job, steps[..n]), Move(job, steps[n].at, steps[n].reply));
      assert s.jobs[job := before.pc][job := end.pc] == s.jobs[job := end.pc];
    }
  }

}
