/** What settlement guarantees over whole runs: paid once, conserved, and within the daily quota. */
module SettlementRuns {
  import opened Sums
  import opened Settlement
  import Outbox
  import OutboxRuns

  lemma InitHolds(cfg: Config, counter: map<string, int>, opening: map<string, nat>)
    ensures Inv(Init(cfg, counter, opening))
  {
    OutboxRuns.InitHolds(opening);
  }

  // ---------- paid once, conserved ----------

  /** Idle points recorded for u that have not reached the balance yet. */
  function Unapplied(log: seq<string>, u: string): Outbox.Row -> int {
    (r: Outbox.Row) => if r.user == u && IsIdleEvent(r.event) && r.event !in log then r.delta else 0
  }

  /** Points of other producers that have reached u's balance. */
  function AppliedOther(log: seq<string>, u: string): Outbox.Row -> int {
    (r: Outbox.Row) => if r.user == u && !IsIdleEvent(r.event) && r.event in log then r.delta else 0
  }

  function AppliedIdle(log: seq<string>, u: string): Outbox.Row -> int {
    (r: Outbox.Row) => if r.user == u && IsIdleEvent(r.event) && r.event in log then r.delta else 0
  }

  /**
   However settlements race, crash or fail: a record has an outbox row exactly when it closed with
   points, for its own user and amount; each close took effect once; and each balance, plus the idle
   points still on their way, is the opening balance plus all points earned and all other credits.
   */
  lemma PaidOnceAndConserved(cfg: Config, counter: map<string, int>, opening: map<string, nat>, steps: seq<Step>)
    ensures var s := Exec(Init(cfg, counter, opening), steps);
      && (forall i :: 0 <= i < |s.records| ==>
            && (RowOf(s, i) >= 0 <==> s.records[i].earned != 0)
            && (s.records[i].status.Active? ==> s.records[i].earned == 0)
            && (RowOf(s, i) >= 0 ==>
                  var row := s.points.rows[RowOf(s, i)];
                  row.user == s.records[i].user && row.delta == s.records[i].earned))
      && (forall i, j :: 0 <= i < j < |s.closed| ==> s.closed[i] != s.closed[j])
      && (forall i :: 0 <= i < |s.records| ==> (i in s.closed <==> !s.records[i].status.Active?))
      && (forall u :: u in s.points.balances ==>
            && u in s.points.opening
            && s.points.balances[u] + SumBy(s.points.rows, Unapplied(s.points.log, u))
            == s.points.opening[u] + SumBy(s.records, EarnedBy(u)) + SumBy(s.points.rows, AppliedOther(s.points.log, u)))
  {
    InitHolds(cfg, counter, opening);
    RunKeeps(Init(cfg, counter, opening), steps);
    var s := Exec(Init(cfg, counter, opening), steps);
    var rows, log := s.points.rows, s.points.log;
    forall u | u in s.points.balances
      ensures s.points.balances[u] + SumBy(rows, Unapplied(log, u))
           == s.points.opening[u] + SumBy(s.records, EarnedBy(u)) + SumBy(rows, AppliedOther(log, u))
    {
      SumBySplit(rows, Outbox.Credited(log, u), AppliedIdle(log, u), AppliedOther(log, u));
      SumBySplit(rows, IdleDelta(u), AppliedIdle(log, u), Unapplied(log, u));
    }
  }

  /** Grants are never negative as long as there is a limit or the rate is not negative. */
  ghost predicate SignInv(s: State) {
    && (forall i :: 0 <= i < |s.records| ==> s.records[i].earned >= 0)
    && (forall w :: 0 <= w < |s.settlers| ==>
          match s.settlers[w]
          case Begun(_, _, _, want) => s.cfg.limit > 0 || want >= 0
          case Granted(_, _, _, g) => g >= 0
          case Undo(_, _, g) => g >= 0
          case Ended => true)
  }

  lemma PointsSign(cfg: Config, seconds: int)
    requires cfg.pointsPerMinute >= 0
    ensures Points(cfg, seconds) >= 0
  {
    var minutes := Max(seconds / 60, 1);
    assert minutes * cfg.pointsPerMinute >= 0;
  }

  lemma BeginKeepsSign(s: State, rec: nat, completed: bool, now: int)
    requires SignInv(s) && (s.cfg.limit > 0 || s.cfg.pointsPerMinute >= 0)
    ensures SignInv(Apply(s, Begin(rec, completed, now)))
  {
    if rec < |s.records| && s.cfg.limit <= 0 {
      PointsSign(s.cfg, now - s.records[rec].start);
    }
  }

  lemma AcquireKeepsSign(s: State, w: nat, o: Outbox.Outcome)
    requires SignInv(s) && SettlerAt(s, w).Begun?
    ensures SignInv(DoAcquire(s, w, o))
  {
  }

  lemma CloseKeepsSign(s: State, w: nat, failed: bool)
    requires SignInv(s) && SettlerAt(s, w).Granted?
    ensures SignInv(DoClose(s, w, failed))
  {
    hide Outbox.Find, Outbox.DoAppend;
  }

  lemma StepKeepsSign(s: State, step: Step)
    requires SignInv(s) && (s.cfg.limit > 0 || s.cfg.pointsPerMinute >= 0)
    ensures SignInv(Apply(s, step)) && Apply(s, step).cfg == s.cfg
  {
    StepKeepsConstants(s, step);
    hide Points, DoAcquire, DoClose;
    match step
    case Begin(rec, completed, now) => BeginKeepsSign(s, rec, completed, now);
    case Acquire(w, o) => if SettlerAt(s, w).Begun? { AcquireKeepsSign(s, w, o); }
    case Close(w, failed) => if SettlerAt(s, w).Granted? { CloseKeepsSign(s, w, failed); }
    case _ =>
  }

  /** Then an outbox row exists exactly when the record closed with a positive number of points. */
  lemma {:induction false} EarnedNeverNegative(s: State, steps: seq<Step>)
    requires SignInv(s) && (s.cfg.limit > 0 || s.cfg.pointsPerMinute >= 0)
    ensures SignInv(Exec(s, steps))
    decreases |steps|
  {
    if steps != [] {
      StepKeepsSign(s, steps[0]);
      EarnedNeverNegative(Apply(s, steps[0]), steps[1..]);
    }
  }

  /** A record that has left active is never written again. */
  lemma {:induction false} ClosedForever(s: State, steps: seq<Step>, i: nat)
    requires i < |s.records| && !s.records[i].status.Active?
    ensures i < |Exec(s, steps).records| && Exec(s, steps).records[i] == s.records[i]
    decreases |steps|
  {
    if steps != [] {
      ClosedForever(Apply(s, steps[0]), steps[1..], i);
    }
  }

  // ---------- the daily quota ----------

  /** Replacing settler w changes what is held for u by the difference between the two. */
  lemma HeldAfter(s: State, w: nat, k: Settler, u: string)
    requires w < |s.settlers|
    ensures SumBy(s.settlers[w := k], HeldFor(u))
         == SumBy(s.settlers, HeldFor(u)) - HeldFor(u)(s.settlers[w]) + HeldFor(u)(k)
  {
    SumByUpdate(s.settlers, w, k, HeldFor(u));
  }

  lemma GrantsNonNegative(s: State)
    ensures forall cur, want, limit :: Grant(cur, want, limit) >= 0
  {
  }

  lemma StepKeepsSettlerSigns(s: State, step: Step)
    requires QuotaSigns(s)
    ensures forall k :: k in Apply(s, step).settlers && !k.Ended? ==>
      k.user in Apply(s, step).counter && ((k.Granted? || k.Undo?) ==> k.granted >= 0)
  {
    hide Grant, Points, SumBy, HasActive;
    GrantsNonNegative(s);
    var s' := Apply(s, step);
    forall k | k in s'.settlers && !k.Ended?
      ensures k.user in s'.counter && ((k.Granted? || k.Undo?) ==> k.granted >= 0)
    {
      var w :| 0 <= w < |s'.settlers| && s'.settlers[w] == k;
      if w < |s.settlers| { assert s.settlers[w] in s.settlers; }
    }
  }

  lemma StepKeepsLeakSigns(s: State, step: Step)
    requires QuotaSigns(s)
    ensures forall l :: l in Apply(s, step).leaks ==> l.amount >= 0
  {
    hide Grant, Points, SumBy, HasActive;
    GrantsNonNegative(s);
    forall l | l in Apply(s, step).leaks ensures l.amount >= 0 {
      if l !in s.leaks {
        assert (step.Acquire? || step.Release? || step.Crash?) && SettlerAt(s, step.w) in s.settlers;
      }
    }
  }

  lemma StepKeepsQuotaSigns(s: State, step: Step)
    requires QuotaSigns(s)
    ensures QuotaSigns(Apply(s, step))
  {
    StepKeepsSettlerSigns(s, step);
    StepKeepsLeakSigns(s, step);
    StepKeepsConstants(s, step);
    hide Apply;
  }

  /** A grant is the wanted amount cut to what is left, and never negative. */
  lemma GrantIsCapped(cur: int, want: int, limit: int)
    ensures Grant(cur, want, limit) == Max(0, if want <= limit - cur then want else limit - cur)
    ensures cur <= limit ==> cur + Grant(cur, want, limit) <= limit
  {
  }

  lemma AcquireKeepsQuota(s: State, w: nat, o: Outbox.Outcome)
    requires QuotaInv(s) && QuotaSigns(s) && SettlerAt(s, w).Begun?
    ensures QuotaInv(DoAcquire(s, w, o))
  {
    hide SumBy;
    var s' := DoAcquire(s, w, o);
    var owner := s.settlers[w].user;
    assert s.settlers[w] in s.settlers;
    assert s'.records == s.records && s'.base == s.base && s'.cfg == s.cfg;
    GrantIsCapped(s.counter[owner], s.settlers[w].want, s.cfg.limit);
    forall u | u in s.counter ensures s'.counter[u] <= s.cfg.limit && s'.counter[u] == Accounted(s', u) {
      AcquireAccounted(s, w, o, u);
      assert s.counter[u] == Accounted(s, u) && s.counter[u] <= s.cfg.limit;
    }
  }

  lemma AcquireAccounted(s: State, w: nat, o: Outbox.Outcome, u: string)
    requires SettlerAt(s, w).Begun? && s.cfg.limit > 0 && u in s.counter && u in s.base
    ensures var s' := DoAcquire(s, w, o);
      && u in s'.counter
      && s'.counter[u] - s.counter[u] == Accounted(s', u) - Accounted(s, u)
      && (s'.counter[u] == s.counter[u]
          || (u == s.settlers[w].user && s'.counter[u] == s.counter[u] + Grant(s.counter[u], s.settlers[w].want, s.cfg.limit)))
  {
    var s' := DoAcquire(s, w, o);
    HeldAfter(s, w, s'.settlers[w], u);
    if s'.leaks != s.leaks { SumByAppend(s.leaks, s'.leaks[|s.leaks|], LeakedFrom(u)); }
  }

  lemma CloseKeepsQuota(s: State, w: nat, failed: bool)
    requires QuotaInv(s) && QuotaSigns(s) && SettlerInv(s) && RecordInv(s) && SettlerAt(s, w).Granted?
    ensures QuotaInv(DoClose(s, w, failed))
  {
    hide SumBy, Outbox.Find;
    var s' := DoClose(s, w, failed);
    var Granted(rec, owner, _, g) := s.settlers[w];
    assert s.settlers[w] in s.settlers;
    var closes := s'.records != s.records;
    forall u | u in s.counter ensures Accounted(s', u) == Accounted(s, u) {
      HeldAfter(s, w, s'.settlers[w], u);
      if closes {
        SumByUpdate(s.records, rec, s'.records[rec], EarnedBy(u));
      }
    }
  }

  lemma ReleaseKeepsQuota(s: State, w: nat, o: Outbox.Outcome)
    requires QuotaInv(s) && QuotaSigns(s) && SettlerAt(s, w).Undo?
    ensures QuotaInv(DoRelease(s, w, o))
  {
    hide SumBy;
    var s' := DoRelease(s, w, o);
    assert s.settlers[w] in s.settlers;
    forall u | u in s.counter ensures s'.counter[u] == Accounted(s', u) {
      HeldAfter(s, w, Ended, u);
      if s'.leaks != s.leaks { SumByAppend(s.leaks, s'.leaks[|s.leaks|], LeakedFrom(u)); }
    }
  }

  lemma CrashKeepsQuota(s: State, w: nat)
    requires QuotaInv(s) && QuotaSigns(s) && w < |s.settlers|
    ensures QuotaInv(DoCrash(s, w))
  {
    hide SumBy;
    var s' := DoCrash(s, w);
    assert s.settlers[w] in s.settlers;
    forall u | u in s.counter ensures s'.counter[u] == Accounted(s', u) {
      HeldAfter(s, w, Ended, u);
      if s'.leaks != s.leaks { SumByAppend(s.leaks, s'.leaks[|s.leaks|], LeakedFrom(u)); }
    }
  }

  lemma CreateKeepsQuota(s: State, user: string, device: string, start: int)
    requires QuotaInv(s)
    ensures QuotaInv(Apply(s, Create(user, device, start)))
  {
    hide SumBy;
    var r := Record(user, device, start, Active, 0);
    forall u ensures SumBy(s.records + [r], EarnedBy(u)) == SumBy(s.records, EarnedBy(u)) {
      SumByAppend(s.records, r, EarnedBy(u));
    }
  }

  lemma BeginKeepsQuota(s: State, rec: nat, completed: bool, now: int)
    requires QuotaInv(s)
    ensures QuotaInv(Apply(s, Begin(rec, completed, now)))
  {
    hide SumBy, Points;
    if rec < |s.records| {
      var k := Begun(rec, s.records[rec].user, completed, Points(s.cfg, now - s.records[rec].start));
      forall u ensures SumBy(s.settlers + [k], HeldFor(u)) == SumBy(s.settlers, HeldFor(u)) {
        SumByAppend(s.settlers, k, HeldFor(u));
      }
    }
  }

  lemma StepKeepsQuota(s: State, step: Step)
    requires Inv(s) && QuotaInv(s) && QuotaSigns(s)
    ensures QuotaInv(Apply(s, step))
  {
    hide SumBy, Outbox.Inv, Outbox.Apply;
    match step
    case Acquire(w, o) => if SettlerAt(s, w).Begun? { AcquireKeepsQuota(s, w, o); }
    case Close(w, failed) => if SettlerAt(s, w).Granted? { CloseKeepsQuota(s, w, failed); }
    case Release(w, o) => if SettlerAt(s, w).Undo? { ReleaseKeepsQuota(s, w, o); }
    case Crash(w) => if !SettlerAt(s, w).Ended? { CrashKeepsQuota(s, w); }
    case Create(user, device, start) => CreateKeepsQuota(s, user, device, start);
    case Begin(rec, completed, now) => BeginKeepsQuota(s, rec, completed, now);
    case Deliver(_) =>
  }

  lemma StepKeepsConstants(s: State, step: Step)
    ensures Apply(s, step).base == s.base && Apply(s, step).cfg == s.cfg
  {
  }

  lemma {:induction false} RunKeepsQuota(s: State, steps: seq<Step>)
    requires Inv(s) && QuotaInv(s) && QuotaSigns(s)
    ensures QuotaInv(Exec(s, steps)) && QuotaSigns(Exec(s, steps))
    ensures Exec(s, steps).base == s.base && Exec(s, steps).cfg == s.cfg
    decreases |steps|
  {
    if steps != [] {
      var s' := Apply(s, steps[0]);
      assert Inv(s') by { StepKeeps(s, steps[0]); }
      assert QuotaInv(s') by { StepKeepsQuota(s, steps[0]); }
      assert QuotaSigns(s') by { StepKeepsQuotaSigns(s, steps[0]); }
      StepKeepsConstants(s, steps[0]);
      RunKeepsQuota(s', steps[1..]);
    }
  }

  lemma InitQuota(cfg: Config, counter: map<string, int>, opening: map<string, nat>)
    requires cfg.limit > 0 && forall u :: u in counter ==> counter[u] <= cfg.limit
    ensures QuotaInv(Init(cfg, counter, opening)) && QuotaSigns(Init(cfg, counter, opening))
  {
  }

  /**
   With a limit and warm counters below it: confirmed and held points stay within the counter, and the
   counter within the limit.
   */
  lemma QuotaNeverExceeded(cfg: Config, counter: map<string, int>, opening: map<string, nat>, steps: seq<Step>)
    requires cfg.limit > 0 && forall u :: u in counter ==> counter[u] <= cfg.limit
    ensures var s := Exec(Init(cfg, counter, opening), steps);
      forall u :: u in counter ==>
        && u in s.counter
        && counter[u] + SumBy(s.records, EarnedBy(u)) + SumBy(s.settlers, HeldFor(u)) <= s.counter[u] <= cfg.limit
  {
    hide Exec, Apply, Inv, Outbox.Inv;
    InitHolds(cfg, counter, opening);
    InitQuota(cfg, counter, opening);
    var s := Exec(Init(cfg, counter, opening), steps);
    RunKeepsQuota(Init(cfg, counter, opening), steps);
    forall u | u in counter ensures SumBy(s.leaks, LeakedFrom(u)) >= 0 {
      SumByNonNegative(s.leaks, LeakedFrom(u));
    }
  }

  /** No crash, no release that failed without effect, no acquire whose answer was lost. */
  predicate Lossless(step: Step) {
    match step
    case Crash(_) => false
    case Release(_, o) => o.Ok? || o.took
    case Acquire(_, o) => o.Ok? || !o.took
    case _ => true
  }

  lemma {:induction false} LosslessLeaksNothing(s: State, steps: seq<Step>)
    requires s.leaks == [] && forall i :: 0 <= i < |steps| ==> Lossless(steps[i])
    ensures Exec(s, steps).leaks == []
    decreases |steps|
  {
    if steps != [] {
      assert Lossless(steps[0]);
      LosslessLeaksNothing(Apply(s, steps[0]), steps[1..]);
    }
  }

  /** While nothing was lost, the counter is exactly what was there, plus confirmed, plus held. */
  lemma QuotaExactWithoutLosses(cfg: Config, counter: map<string, int>, opening: map<string, nat>, steps: seq<Step>)
    requires cfg.limit > 0 && forall u :: u in counter ==> counter[u] <= cfg.limit
    requires forall i :: 0 <= i < |steps| ==> Lossless(steps[i])
    ensures var s := Exec(Init(cfg, counter, opening), steps);
      forall u :: u in counter ==>
        && u in s.counter
        && s.counter[u] == counter[u] + SumBy(s.records, EarnedBy(u)) + SumBy(s.settlers, HeldFor(u))
  {
    hide Exec, Apply, Inv, Outbox.Inv;
    InitHolds(cfg, counter, opening);
    InitQuota(cfg, counter, opening);
    RunKeepsQuota(Init(cfg, counter, opening), steps);
    LosslessLeaksNothing(Init(cfg, counter, opening), steps);
  }

  // ---------- without a limit ----------

  /** No settlement in flight has anything to give back. */
  ghost predicate NothingToGiveBack(s: State) {
    && s.cfg.limit <= 0 && s.cfg.pointsPerMinute <= 0
    && forall w :: 0 <= w < |s.settlers| ==>
         match s.settlers[w]
         case Begun(_, _, _, want) => want <= 0
         case Granted(_, _, _, g) => g <= 0
         case Undo(_, _, _) => false
         case Ended => true
  }

  lemma PointsNotPositive(cfg: Config, seconds: int)
    requires cfg.pointsPerMinute <= 0
    ensures Points(cfg, seconds) <= 0
  {
    var minutes := Max(seconds / 60, 1);
    assert minutes * cfg.pointsPerMinute <= 0;
  }

  lemma StepGivesNothingBack(s: State, step: Step)
    requires NothingToGiveBack(s)
    ensures NothingToGiveBack(Apply(s, step)) && Apply(s, step).counter == s.counter
  {
    if step.Begin? && step.rec < |s.records| {
      PointsNotPositive(s.cfg, step.now - s.records[step.rec].start);
    }
    hide Points, HasActive, Outbox.Apply, Outbox.DoAppend;
  }

  lemma {:induction false} RunGivesNothingBack(s: State, steps: seq<Step>)
    requires NothingToGiveBack(s)
    ensures Exec(s, steps).counter == s.counter
    decreases |steps|
  {
    if steps != [] {
      StepGivesNothingBack(s, steps[0]);
      RunGivesNothingBack(Apply(s, steps[0]), steps[1..]);
    }
  }

  /** A session created and closed by one settlement while another has already begun on it. */
  const RACE_STEPS := [Create("u", "d", 0), Begin(0, true, 0), Begin(0, true, 0), Acquire(0, Outbox.Ok), Close(0, false)]

  /** The other settlement then finds the session closed and gives back. */
  const LOSE_STEPS := [Acquire(1, Outbox.Ok)] + ([Close(1, false)] + [Release(1, Outbox.Ok)])

  lemma RaceIsLost(cfg: Config, counter: map<string, int>)
    requires cfg.limit <= 0 && cfg.pointsPerMinute > 0 && "u" in counter
    ensures var s := Exec(Init(cfg, counter, map[]), RACE_STEPS);
      && s.cfg == cfg && s.counter == counter
      && SettlerAt(s, 1) == Begun(0, "u", true, cfg.pointsPerMinute)
      && |s.records| == 1 && !s.records[0].status.Active?
  {
    var p := cfg.pointsPerMinute;
    var s0 := Init(cfg, counter, map[]);
    var s1 := Apply(s0, Create("u", "d", 0));
    assert s1.records == [Record("u", "d", 0, Active, 0)];
    assert Points(cfg, 0) == p;
    var s2 := Apply(s1, Begin(0, true, 0));
    var s3 := Apply(s2, Begin(0, true, 0));
    assert s3.settlers == [Begun(0, "u", true, p), Begun(0, "u", true, p)];
    var s4 := Apply(s3, Acquire(0, Outbox.Ok));
    assert s4.settlers == [Granted(0, "u", true, p), Begun(0, "u", true, p)];
    var s5 := Apply(s4, Close(0, false));
    hide Apply;
    ExecFive(s0, Create("u", "d", 0), Begin(0, true, 0), Begin(0, true, 0), Acquire(0, Outbox.Ok), Close(0, false));
  }

  lemma ExecFive(s: State, a: Step, b: Step, c: Step, d: Step, e: Step)
    ensures Exec(s, [a, b, c, d, e]) == Apply(Apply(Apply(Apply(Apply(s, a), b), c), d), e)
  {
    hide Apply;
    assert [a, b, c, d, e] == [a] + ([b] + ([c] + ([d] + ([e] + []))));
    ExecFirst(s, a, [b] + ([c] + ([d] + ([e] + []))));
    ExecFirst(Apply(s, a), b, [c] + ([d] + ([e] + [])));
    ExecFirst(Apply(Apply(s, a), b), c, [d] + ([e] + []));
    ExecFirst(Apply(Apply(Apply(s, a), b), c), d, [e] + []);
    ExecFirst(Apply(Apply(Apply(Apply(s, a), b), c), d), e, []);
  }

  lemma {:induction false} ExecConcat(s: State, a: seq<Step>, b: seq<Step>)
    ensures Exec(s, a + b) == Exec(Exec(s, a), b)
    decreases |a|
  {
    hide Apply;
    if a == [] {
      assert a + b == b;
    } else {
      ExecConcat(Apply(s, a[0]), a[1..], b);
      assert (a + b)[1..] == a[1..] + b;
    }
  }

  lemma RaceLowersTheCounter(cfg: Config)
    requires cfg.limit <= 0 && cfg.pointsPerMinute > 0
    ensures Exec(Init(cfg, map["u" := 0], map[]), RACE_STEPS + LOSE_STEPS).counter
         == map["u" := -cfg.pointsPerMinute]
  {
    hide Apply, Exec;
    var s0 := Init(cfg, map["u" := 0], map[]);
    RaceIsLost(cfg, map["u" := 0]);
    ExecConcat(s0, RACE_STEPS, LOSE_STEPS);
    NoLimitReleaseDrifts(Exec(s0, RACE_STEPS), 1);
  }

  /**
   Without a limit nothing is ever reserved, so the counter should stay as it was. It does, in every
   run, exactly when points are not awarded at all: a settlement that loses the race gives back what
   it never took.
   */
  lemma NoLimitCounterKeptIff(cfg: Config)
    requires cfg.limit <= 0
    ensures (forall counter: map<string, int>, opening: map<string, nat>, steps ::
               Exec(Init(cfg, counter, opening), steps).counter == counter)
            <==> cfg.pointsPerMinute <= 0
  {
    if cfg.pointsPerMinute <= 0 {
      forall counter: map<string, int>, opening: map<string, nat>, steps
        ensures Exec(Init(cfg, counter, opening), steps).counter == counter
      {
        RunGivesNothingBack(Init(cfg, counter, opening), steps);
      }
    } else {
      RaceLowersTheCounter(cfg);
      assert map["u" := 0]["u"] != map["u" := -cfg.pointsPerMinute]["u"];
      var steps := RACE_STEPS + LOSE_STEPS;
      assert Exec(Init(cfg, map["u" := 0], map[]), steps).counter != map["u" := 0];
    }
  }

  /** A settlement that has lost the race lowers the counter by its whole award. */
  lemma NoLimitReleaseDrifts(s: State, w: nat)
    requires s.cfg.limit <= 0 && SettlerAt(s, w).Begun? && s.settlers[w].want > 0
    requires s.settlers[w].rec < |s.records| && !s.records[s.settlers[w].rec].status.Active?
    ensures var s' := Exec(s, [Acquire(w, Outbox.Ok)] + ([Close(w, false)] + [Release(w, Outbox.Ok)]));
      && s'.records == s.records && s'.points == s.points
      && s'.counter == Bump(s.counter, s.settlers[w].user, -s.settlers[w].want)
  {
    var s1 := Apply(s, Acquire(w, Outbox.Ok));
    var s2 := Apply(s1, Close(w, false));
    ExecFirst(s2, Release(w, Outbox.Ok), []);
    ExecFirst(s1, Close(w, false), [Release(w, Outbox.Ok)]);
    ExecFirst(s, Acquire(w, Outbox.Ok), [Close(w, false)] + [Release(w, Outbox.Ok)]);
  }

  lemma ExecFirst(s: State, step: Step, rest: seq<Step>)
    ensures Exec(s, [step] + rest) == Exec(Apply(s, step), rest)
  {
    assert ([step] + rest)[1..] == rest;
  }
}
