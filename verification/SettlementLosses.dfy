/**
 Settlement when the closing transaction may report an error although it committed: the record is
 closed and its points are on their way, and yet the quota is given back.
 */
module SettlementLosses {
  import opened Sums
  import opened Settlement
  import Outbox
  import SettlementRuns

  datatype Refund = Refund(user: string, amount: int)

  /**
   base is the settlement state, except that base.base is lowered by every refund of a confirmed
   grant; start is what the counters really started from, and refunds lists those refunds.
   */
  datatype LossyState = LossyState(base: State, start: map<string, int>, refunds: seq<Refund>)

  /** A step of settlement, or a close that commits and reports an error. */
  datatype LossyStep = Do(step: Step) | CloseLost(w: nat)

  function LossyInit(cfg: Config, counter: map<string, int>, opening: map<string, nat>): LossyState {
    LossyState(Init(cfg, counter, opening), counter, [])
  }

  /** Whether the close of w takes effect. */
  predicate Closes(s: State, w: nat) {
    SettlerAt(s, w).Granted? && DoClose(s, w, false).closed != s.closed
  }

  /** The close takes effect, and with points granted its caller goes on to give them back. */
  function DoCloseLost(s: LossyState, w: nat): LossyState
    requires Closes(s.base, w) && s.base.settlers[w].user in s.base.base
  {
    var Granted(rec, u, _, g) := s.base.settlers[w];
    var b := DoClose(s.base, w, false);
    if g <= 0 then s.(base := b)
    else
      LossyState(Set(b, w, Undo(rec, u, g)).(base := b.base[u := b.base[u] - g]), s.start, s.refunds + [Refund(u, g)])
  }

  /** One step; a step that is not enabled changes nothing. */
  function LossyApply(s: LossyState, step: LossyStep): LossyState {
    match step
    case Do(d) => s.(base := Apply(s.base, d))
    case CloseLost(w) =>
      if Closes(s.base, w) && s.base.settlers[w].user in s.base.base then DoCloseLost(s, w) else s
  }

  function LossyExec(s: LossyState, steps: seq<LossyStep>): LossyState
    decreases |steps|
  {
    if steps == [] then s else LossyExec(LossyApply(s, steps[0]), steps[1..])
  }

  function RefundedTo(u: string): Refund -> int {
    (r: Refund) => if r.user == u then r.amount else 0
  }

  ghost predicate RefundInv(s: LossyState) {
    && s.start.Keys == s.base.base.Keys
    && (forall u :: u in s.start ==> s.base.base[u] == s.start[u] - SumBy(s.refunds, RefundedTo(u)))
  }

  ghost predicate LossyInv(s: LossyState) {
    Inv(s.base) && QuotaInv(s.base) && QuotaSigns(s.base) && RefundInv(s)
  }

  // ---------- every step keeps it ----------

  /** Which settlement stands where, and what the counters started from, is no matter of records and rows. */
  lemma OnlySettlersAndBase(s: State, t: State)
    requires Inv(s) && SettlerInv(t)
    requires t.records == s.records && t.points == s.points && t.closed == s.closed
    ensures Inv(t)
  {
    forall i: nat ensures RowOf(t, i) == RowOf(s, i) {}
  }

  lemma CloseLostKeepsInv(s: LossyState, w: nat)
    requires Inv(s.base) && Closes(s.base, w) && s.base.settlers[w].user in s.base.base
    ensures Inv(DoCloseLost(s, w).base)
  {
    CloseKeeps(s.base, w, false);
    var b := DoClose(s.base, w, false);
    var t := DoCloseLost(s, w).base;
    assert SettlerInv(t) by { hide SumBy, Outbox.Find; }
    hide Inv, DoClose, Closes;
    OnlySettlersAndBase(b, t);
  }

  lemma CloseLostAccounts(s: LossyState, w: nat, u: string)
    requires Closes(s.base, w) && s.base.settlers[w].user in s.base.base && u in s.base.base
    requires s.base.settlers[w].granted > 0
    requires s.base.settlers[w].rec < |s.base.records|
    requires s.base.records[s.base.settlers[w].rec].earned == 0
    requires s.base.records[s.base.settlers[w].rec].user == s.base.settlers[w].user
    ensures Accounted(DoCloseLost(s, w).base, u) == Accounted(s.base, u)
  {
    var Granted(rec, v, completed, g) := s.base.settlers[w];
    SumByUpdate(s.base.records, rec, ClosedRecord(s.base.records[rec], completed, g), EarnedBy(u));
    var b := DoClose(s.base, w, false);
    assert b.settlers[w := Undo(rec, v, g)] == s.base.settlers[w := Undo(rec, v, g)];
    SumByUpdate(s.base.settlers, w, Undo(rec, v, g), HeldFor(u));
    hide SumBy, Outbox.Find, Outbox.DoAppend;
  }

  lemma CloseLostFree(s: LossyState, w: nat)
    requires LossyInv(s) && Closes(s.base, w) && s.base.settlers[w].user in s.base.base && s.base.settlers[w].granted <= 0
    ensures QuotaInv(DoCloseLost(s, w).base) && QuotaSigns(DoCloseLost(s, w).base)
  {
    hide QuotaInv, QuotaSigns, DoClose, RecordInv, SettlerInv, EarnedInv, ClosedInv, Outbox.Inv, RefundInv;
    SettlementRuns.CloseKeepsQuota(s.base, w, false);
    SettlementRuns.StepKeepsQuotaSigns(s.base, Close(w, false));
  }

  lemma CloseLostPaid(s: LossyState, w: nat)
    requires QuotaInv(s.base) && RecordInv(s.base) && SettlerInv(s.base)
    requires Closes(s.base, w) && s.base.settlers[w].user in s.base.base && s.base.settlers[w].granted > 0
    ensures QuotaInv(DoCloseLost(s, w).base)
  {
    hide SumBy, DoCloseLost, Closes, DoClose, Accounted, RecordInv, SettlerInv;
    var t := DoCloseLost(s, w).base;
    CloseLostFrame(s, w);
    forall u | u in t.counter ensures t.counter[u] <= t.cfg.limit && t.counter[u] == Accounted(t, u) {
      assert s.base.counter[u] == Accounted(s.base, u);
      CloseLostAccounts(s, w, u);
    }
  }

  lemma CloseLostKeepsQuota(s: LossyState, w: nat)
    requires LossyInv(s) && Closes(s.base, w) && s.base.settlers[w].user in s.base.base
    ensures QuotaInv(DoCloseLost(s, w).base) && QuotaSigns(DoCloseLost(s, w).base)
  {
    hide QuotaInv, QuotaSigns, DoCloseLost, DoClose, RecordInv, SettlerInv, EarnedInv, ClosedInv, Outbox.Inv, RefundInv;
    if s.base.settlers[w].granted <= 0 {
      CloseLostFree(s, w);
    } else {
      CloseLostPaid(s, w);
      CloseLostSigns(s, w);
    }
  }

  lemma CloseLostFrame(s: LossyState, w: nat)
    requires Closes(s.base, w) && s.base.settlers[w].user in s.base.base && s.base.settlers[w].granted > 0
    requires RecordInv(s.base) && SettlerInv(s.base)
    ensures var t := DoCloseLost(s, w).base;
      && t.counter == s.base.counter && t.cfg == s.base.cfg && t.base.Keys == s.base.base.Keys
      && var rec := s.base.settlers[w].rec;
         rec < |s.base.records| && s.base.records[rec].earned == 0 && s.base.records[rec].user == s.base.settlers[w].user
  {
    hide Outbox.Find, Outbox.DoAppend, RowOf;
  }

  lemma CloseLostSigns(s: LossyState, w: nat)
    requires QuotaSigns(s.base) && Closes(s.base, w) && s.base.settlers[w].user in s.base.base
    requires s.base.settlers[w].granted > 0
    ensures QuotaSigns(DoCloseLost(s, w).base)
  {
    hide SumBy, Outbox.Find, Outbox.DoAppend;
    var t := DoCloseLost(s, w).base;
    assert s.base.settlers[w] in s.base.settlers;
    forall k | k in t.settlers && !k.Ended?
      ensures k.user in t.counter && (k.Granted? || k.Undo? ==> k.granted >= 0)
    {
      var v :| 0 <= v < |t.settlers| && t.settlers[v] == k;
      assert s.base.settlers[v] in s.base.settlers;
    }
  }

  lemma CloseLostKeepsRefunds(s: LossyState, w: nat)
    requires RefundInv(s) && Closes(s.base, w) && s.base.settlers[w].user in s.base.base
    ensures RefundInv(DoCloseLost(s, w))
  {
    var Granted(rec, v, _, g) := s.base.settlers[w];
    forall u
      ensures SumBy(s.refunds + [Refund(v, g)], RefundedTo(u)) == SumBy(s.refunds, RefundedTo(u)) + if v == u then g else 0
    {
      SumByAppend(s.refunds, Refund(v, g), RefundedTo(u));
    }
    SettlementRuns.StepKeepsConstants(s.base, Close(w, false));
    hide SumBy, Outbox.Find, Outbox.DoAppend;
  }

  lemma DoKeepsLossy(s: LossyState, d: Step)
    requires LossyInv(s)
    ensures LossyInv(LossyApply(s, Do(d)))
  {
    hide Apply, Inv, QuotaInv, QuotaSigns;
    StepKeeps(s.base, d);
    SettlementRuns.StepKeepsQuota(s.base, d);
    SettlementRuns.StepKeepsQuotaSigns(s.base, d);
    SettlementRuns.StepKeepsConstants(s.base, d);
    hide SumBy;
  }

  lemma StepKeepsLossy(s: LossyState, step: LossyStep)
    requires LossyInv(s)
    ensures LossyInv(LossyApply(s, step)) && LossyApply(s, step).start == s.start
  {
    hide Inv, QuotaInv, QuotaSigns, RefundInv, DoClose, Apply;
    match step
    case Do(d) => DoKeepsLossy(s, d);
    case CloseLost(w) =>
      if Closes(s.base, w) && s.base.settlers[w].user in s.base.base {
        CloseLostKeepsInv(s, w);
        CloseLostKeepsQuota(s, w);
        CloseLostKeepsRefunds(s, w);
      }
  }

  lemma {:induction false} LossyRunKeeps(s: LossyState, steps: seq<LossyStep>)
    requires LossyInv(s)
    ensures LossyInv(LossyExec(s, steps)) && LossyExec(s, steps).start == s.start
    decreases |steps|
  {
    if steps != [] {
      StepKeepsLossy(s, steps[0]);
      hide LossyApply, LossyInv;
      LossyRunKeeps(LossyApply(s, steps[0]), steps[1..]);
    }
  }

  // ---------- what holds over whole runs ----------

  /** The points of u that are confirmed or held in s. */
  function ConfirmedOrHeld(s: State, u: string): int {
    SumBy(s.records, EarnedBy(u)) + SumBy(s.settlers, HeldFor(u))
  }

  lemma LossyInitHolds(cfg: Config, counter: map<string, int>, opening: map<string, nat>)
    requires cfg.limit > 0 && forall u :: u in counter ==> counter[u] <= cfg.limit
    ensures LossyInv(LossyInit(cfg, counter, opening)) && LossyInit(cfg, counter, opening).start == counter
  {
    SettlementRuns.InitHolds(cfg, counter, opening);
    SettlementRuns.InitQuota(cfg, counter, opening);
    hide Inv, QuotaInv, QuotaSigns;
  }

  /** With a limit, no counter exceeds it, and each falls short of what is confirmed and held by no more than was refunded. */
  lemma ShortByRefundsAtMost(cfg: Config, counter: map<string, int>, opening: map<string, nat>, steps: seq<LossyStep>)
    requires cfg.limit > 0 && forall u :: u in counter ==> counter[u] <= cfg.limit
    ensures var s := LossyExec(LossyInit(cfg, counter, opening), steps);
      forall u :: u in counter ==>
        && u in s.base.counter && s.base.counter[u] <= s.base.cfg.limit
        && counter[u] + ConfirmedOrHeld(s.base, u) - SumBy(s.refunds, RefundedTo(u)) <= s.base.counter[u]
  {
    hide LossyExec, LossyApply, Apply, Inv, SumBy, LossyInit;
    LossyInitHolds(cfg, counter, opening);
    var s0 := LossyInit(cfg, counter, opening);
    LossyRunKeeps(s0, steps);
    var s := LossyExec(s0, steps);
    forall u | u in counter ensures SumBy(s.base.leaks, LeakedFrom(u)) >= 0 {
      SumByNonNegative(s.base.leaks, LeakedFrom(u));
    }
  }

  predicate NoneLost(steps: seq<LossyStep>) {
    forall i :: 0 <= i < |steps| ==> !steps[i].CloseLost?
  }

  lemma {:induction false} NothingRefunded(s: LossyState, steps: seq<LossyStep>)
    requires s.refunds == [] && NoneLost(steps)
    ensures LossyExec(s, steps).refunds == []
    decreases |steps|
  {
    if steps != [] {
      hide Apply;
      NothingRefunded(LossyApply(s, steps[0]), steps[1..]);
    }
  }

  /** Without a positive rate nothing is ever granted. */
  ghost predicate NoGrants(s: LossyState) {
    && s.refunds == [] && s.base.cfg.pointsPerMinute <= 0
    && forall k :: k in s.base.settlers ==> Idle(k)
  }

  lemma StepGrantsNothing(s: LossyState, step: LossyStep)
    requires NoGrants(s) && LossyInv(s)
    ensures NoGrants(LossyApply(s, step))
  {
    match step
    case Do(d) => BaseGrantsNothing(s.base, d);
    case CloseLost(w) =>
      if Closes(s.base, w) && s.base.settlers[w].user in s.base.base {
        assert s.base.settlers[w] in s.base.settlers;
        BaseGrantsNothing(s.base, Close(w, false));
      }
  }

  predicate Idle(k: Settler) {
    (k.Begun? ==> k.want <= 0) && (k.Granted? ==> k.granted == 0) && !k.Undo?
  }

  lemma AcquireGrantsNothing(s: State, w: nat, o: Outbox.Outcome)
    requires QuotaInv(s) && QuotaSigns(s) && SettlerAt(s, w).Begun? && Idle(s.settlers[w])
    ensures Idle(DoAcquire(s, w, o).settlers[w])
  {
    hide SumBy;
    assert s.settlers[w] in s.settlers;
    SettlementRuns.GrantIsCapped(s.counter[s.settlers[w].user], s.settlers[w].want, s.cfg.limit);
  }

  lemma BaseGrantsNothing(s: State, d: Step)
    requires s.cfg.pointsPerMinute <= 0 && QuotaInv(s) && QuotaSigns(s)
    requires forall k :: k in s.settlers ==> Idle(k)
    ensures forall k :: k in Apply(s, d).settlers ==> Idle(k)
    ensures Apply(s, d).cfg == s.cfg
  {
    hide SumBy, Points, Grant, Outbox.Apply, Outbox.DoAppend, HasActive, QuotaInv, QuotaSigns;
    SettlementRuns.StepKeepsConstants(s, d);
    if d.Begin? && d.rec < |s.records| {
      SettlementRuns.PointsNotPositive(s.cfg, d.now - s.records[d.rec].start);
    }
    if d.Acquire? && SettlerAt(s, d.w).Begun? {
      assert s.settlers[d.w] in s.settlers;
      AcquireGrantsNothing(s, d.w, d.outcome);
    }
    forall k | k in Apply(s, d).settlers ensures Idle(k) {
      var v :| 0 <= v < |Apply(s, d).settlers| && Apply(s, d).settlers[v] == k;
      if v < |s.settlers| { assert s.settlers[v] in s.settlers; }
    }
  }

  lemma {:induction false} RunGrantsNothing(s: LossyState, steps: seq<LossyStep>)
    requires NoGrants(s) && LossyInv(s)
    ensures LossyExec(s, steps).refunds == []
    decreases |steps|
  {
    if steps != [] {
      StepGrantsNothing(s, steps[0]);
      StepKeepsLossy(s, steps[0]);
      hide LossyApply, LossyInv;
      RunGrantsNothing(LossyApply(s, steps[0]), steps[1..]);
    }
  }

  // ---------- the one run that breaks the bound ----------

  /** A session is settled, the commit's answer is lost, and the quota goes back. */
  const REFUND_STEPS: seq<LossyStep> :=
    [Do(Create("u", "d", 0)), Do(Begin(0, true, 0)), Do(Acquire(0, Outbox.Ok)), CloseLost(0), Do(Release(0, Outbox.Ok))]

  lemma ExecFive(s: LossyState, a: LossyStep, b: LossyStep, c: LossyStep, d: LossyStep, e: LossyStep)
    ensures LossyExec(s, [a, b, c, d, e]) == LossyApply(LossyApply(LossyApply(LossyApply(LossyApply(s, a), b), c), d), e)
  {
    hide LossyApply;
    assert [a, b, c, d, e][1..] == [b, c, d, e] && [b, c, d, e][1..] == [c, d, e] && [c, d, e][1..] == [d, e];
    assert [d, e][1..] == [e] && [e][1..] == [];
    var s3 := LossyApply(LossyApply(LossyApply(s, a), b), c);
    assert LossyExec(s, [a, b, c, d, e]) == LossyExec(LossyApply(s, a), [b, c, d, e]);
    assert LossyExec(LossyApply(LossyApply(s, a), b), [c, d, e]) == LossyExec(s3, [d, e]);
    assert LossyExec(LossyApply(s3, d), [e]) == LossyExec(LossyApply(LossyApply(s3, d), e), []);
  }

  lemma GrantedState(cfg: Config)
    requires cfg.limit > 0 && cfg.pointsPerMinute > 0
    ensures var g := Grant(0, cfg.pointsPerMinute, cfg.limit);
      var s0 := LossyInit(cfg, map["u" := 0], map[]);
      var s := LossyApply(LossyApply(LossyApply(s0, REFUND_STEPS[0]), REFUND_STEPS[1]), REFUND_STEPS[2]);
      && g > 0 && s.refunds == [] && s.start == map["u" := 0]
      && s.base.counter == map["u" := g] && s.base.base == map["u" := 0] && s.base.cfg == cfg
      && s.base.records == [Record("u", "d", 0, Active, 0)] && s.base.points.rows == [] && s.base.closed == []
      && s.base.settlers == [Granted(0, "u", true, g)]
  {
    var s0 := LossyInit(cfg, map["u" := 0], map[]);
    var s1 := LossyApply(s0, REFUND_STEPS[0]);
    assert s1.base.records == [Record("u", "d", 0, Active, 0)];
    assert Points(cfg, 0) == cfg.pointsPerMinute;
    var s2 := LossyApply(s1, REFUND_STEPS[1]);
    assert s2.base.settlers == [Begun(0, "u", true, cfg.pointsPerMinute)];
    assert s2.base.counter == map["u" := 0];
  }

  lemma RefundedState(s: LossyState, g: int)
    requires g > 0 && s.base.counter == map["u" := g] && s.base.base == map["u" := 0]
    requires s.base.records == [Record("u", "d", 0, Active, 0)] && s.base.points.rows == [] && s.base.closed == []
    requires s.base.settlers == [Granted(0, "u", true, g)]
    ensures var s' := LossyApply(LossyApply(s, REFUND_STEPS[3]), REFUND_STEPS[4]);
      && s'.base.counter == map["u" := 0]
      && s'.base.records == [Record("u", "d", 0, Completed, g)]
      && s'.base.settlers == [Ended]
  {
    assert DoClose(s.base, 0, false).closed == [0];
    var s4 := LossyApply(s, REFUND_STEPS[3]);
    assert s4.base.settlers == [Undo(0, "u", g)];
    assert s4.base.records == [Record("u", "d", 0, Completed, g)];
    assert s4.base.counter == map["u" := g];
  }

  lemma RefundBreaksTheBound(cfg: Config)
    requires cfg.limit > 0 && cfg.pointsPerMinute > 0
    ensures var s := LossyExec(LossyInit(cfg, map["u" := 0], map[]), REFUND_STEPS);
      s.base.counter == map["u" := 0] && ConfirmedOrHeld(s.base, "u") > 0
  {
    var g := Grant(0, cfg.pointsPerMinute, cfg.limit);
    var s0 := LossyInit(cfg, map["u" := 0], map[]);
    var s3 := LossyApply(LossyApply(LossyApply(s0, REFUND_STEPS[0]), REFUND_STEPS[1]), REFUND_STEPS[2]);
    GrantedState(cfg);
    RefundedState(s3, g);
    hide LossyApply;
    ExecFive(s0, REFUND_STEPS[0], REFUND_STEPS[1], REFUND_STEPS[2], REFUND_STEPS[3], REFUND_STEPS[4]);
    assert REFUND_STEPS == [REFUND_STEPS[0], REFUND_STEPS[1], REFUND_STEPS[2], REFUND_STEPS[3], REFUND_STEPS[4]];
    SumByAppend([], Record("u", "d", 0, Completed, g), EarnedBy("u"));
    SumByAppend([], Ended, HeldFor("u"));
    assert [] + [Record("u", "d", 0, Completed, g)] == [Record("u", "d", 0, Completed, g)];
    assert [] + [Ended] == [Ended];
  }

  /** Confirmed and held points stay within the counter. */
  ghost predicate Within(cfg: Config, counter: map<string, int>, opening: map<string, nat>, steps: seq<LossyStep>) {
    var s := LossyExec(LossyInit(cfg, counter, opening), steps);
    forall u :: u in counter ==> u in s.base.counter && counter[u] + ConfirmedOrHeld(s.base, u) <= s.base.counter[u]
  }

  /**
   With a limit and warm counters below it, confirmed and held points stay within the counter in every
   run: exactly when a committed close is never reported as an error, or no points are awarded at all.
   */
  lemma QuotaHoldsIffNoAnswerLost(cfg: Config, lossy: bool)
    requires cfg.limit > 0
    ensures (forall counter: map<string, int>, opening: map<string, nat>, steps ::
               (lossy || NoneLost(steps)) && (forall u :: u in counter ==> counter[u] <= cfg.limit) ==>
                 Within(cfg, counter, opening, steps))
            <==> !lossy || cfg.pointsPerMinute <= 0
  {
    if lossy && cfg.pointsPerMinute > 0 {
      RefundBreaksTheBound(cfg);
      var counter: map<string, int> := map["u" := 0];
      assert !Within(cfg, counter, map[], REFUND_STEPS);
    } else {
      forall counter: map<string, int>, opening: map<string, nat>, steps
        | (lossy || NoneLost(steps)) && (forall u :: u in counter ==> counter[u] <= cfg.limit)
        ensures Within(cfg, counter, opening, steps)
      {
        NothingRefundedThen(cfg, counter, opening, steps);
        ShortByRefundsAtMost(cfg, counter, opening, steps);
      }
    }
  }

  lemma NothingRefundedThen(cfg: Config, counter: map<string, int>, opening: map<string, nat>, steps: seq<LossyStep>)
    requires cfg.limit > 0 && forall u :: u in counter ==> counter[u] <= cfg.limit
    requires NoneLost(steps) || cfg.pointsPerMinute <= 0
    ensures LossyExec(LossyInit(cfg, counter, opening), steps).refunds == []
  {
    var s0 := LossyInit(cfg, counter, opening);
    if NoneLost(steps) {
      NothingRefunded(s0, steps);
    } else {
      LossyInitHolds(cfg, counter, opening);
      RunGrantsNothing(s0, steps);
    }
  }
}
