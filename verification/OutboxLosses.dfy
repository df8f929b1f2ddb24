/**
 The outbox when UpdatePoints itself may report an error after the balance has changed: what still
 holds, and that at-most-once is exactly what such an error costs.
 */
module OutboxLosses {
  import opened Sums
  import Outbox
  import OutboxRuns

  /**
   base is the outbox as the program sees it, except that base.opening also carries what lost answers
   paid; opening is what each user really started from, and lost lists the jobs paid without an answer.
   */
  datatype State = State(base: Outbox.State, opening: map<string, int>, lost: seq<Outbox.Job>)

  /** A step of the outbox, or an UpdatePoints that takes effect and reports an error. */
  datatype Step = Do(step: Outbox.Step) | UpdateLost(w: nat)

  function Init(opening: map<string, nat>): State {
    State(Outbox.Init(opening), opening, [])
  }

  function DoUpdateLost(s: State, w: nat): State
    requires Outbox.WorkerAt(s.base, w).Claimed? && s.base.workers[w].job.user in s.base.opening
  {
    var job := s.base.workers[w].job;
    var b := s.base;
    if !Outbox.CanPay(b.balances, job.user, job.delta) then s.(base := Outbox.DoUpdate(b, w, true))
    else
      State(b.(balances := Outbox.Pay(b.balances, job.user, job.delta),
               opening := b.opening[job.user := b.opening[job.user] + job.delta],
               workers := b.workers[w := Outbox.Refused(job)]),
            s.opening, s.lost + [job])
  }

  /** One step; a step that is not enabled changes nothing. */
  function Apply(s: State, step: Step): State {
    match step
    case Do(o) =>
      State(Outbox.Apply(s.base, o),
            if o.AddUser? && o.user !in s.base.balances then s.opening[o.user := o.balance] else s.opening,
            s.lost)
    case UpdateLost(w) =>
      if Outbox.WorkerAt(s.base, w).Claimed? && s.base.workers[w].job.user in s.base.opening then DoUpdateLost(s, w) else s
  }

  function Exec(s: State, steps: seq<Step>): State
    decreases |steps|
  {
    if steps == [] then s else Exec(Apply(s, steps[0]), steps[1..])
  }

  function PaidTo(u: string): Outbox.Job -> int {
    (j: Outbox.Job) => if j.user == u then j.delta else 0
  }

  function Is(e: string): string -> int {
    (x: string) => if x == e then 1 else 0
  }

  function IsJob(e: string): Outbox.Job -> int {
    (j: Outbox.Job) => if j.event == e then 1 else 0
  }

  /** How often event e changed a balance. */
  function Credits(s: State, e: string): int {
    SumBy(s.base.log, Is(e)) + SumBy(s.lost, IsJob(e))
  }

  ghost predicate Inv(s: State) {
    && Outbox.Inv(s.base)
    && s.base.opening.Keys == s.opening.Keys
    && forall u :: u in s.opening ==> s.base.opening[u] == s.opening[u] + SumBy(s.lost, PaidTo(u))
  }

  lemma LostKeepsOutbox(s: State, w: nat)
    requires Outbox.Inv(s.base) && Outbox.WorkerAt(s.base, w).Claimed? && s.base.workers[w].job.user in s.base.opening
    ensures Outbox.Inv(DoUpdateLost(s, w).base)
  {
    if !Outbox.CanPay(s.base.balances, s.base.workers[w].job.user, s.base.workers[w].job.delta) {
      Outbox.UpdateKeeps(s.base, w, true);
    } else {
      hide SumBy, Outbox.Find;
    }
  }

  lemma NobodyWasPaid(s: State, u: string)
    requires Inv(s) && u !in s.opening && forall j :: j in s.lost ==> j.user in s.opening
    ensures SumBy(s.lost, PaidTo(u)) == 0
  {
    SumByZero(s.lost, PaidTo(u));
  }

  ghost predicate Known(s: State) {
    forall j :: j in s.lost ==> j.user in s.opening
  }

  lemma StepKeeps(s: State, step: Step)
    requires Inv(s) && Known(s)
    ensures Inv(Apply(s, step)) && Known(Apply(s, step))
  {
    match step
    case Do(o) => DoKeeps(s, o);
    case UpdateLost(w) =>
      if Outbox.WorkerAt(s.base, w).Claimed? && s.base.workers[w].job.user in s.base.opening {
        LostKeepsOutbox(s, w);
        LostKeepsOpening(s, w);
        hide Outbox.Inv, SumBy;
      }
  }

  lemma DoKeeps(s: State, o: Outbox.Step)
    requires Inv(s) && Known(s)
    ensures Inv(Apply(s, Do(o))) && Known(Apply(s, Do(o)))
  {
    Outbox.StepKeeps(s.base, o);
    OpeningFrame(s.base, o);
    hide Outbox.Apply, SumBy, Outbox.LogInv, Outbox.WorkerInv;
    if o.AddUser? && o.user !in s.base.balances { NobodyWasPaid(s, o.user); }
  }

  lemma OpeningFrame(b: Outbox.State, o: Outbox.Step)
    requires b.opening.Keys == b.balances.Keys
    ensures Outbox.Apply(b, o).opening ==
      if o.AddUser? && o.user !in b.balances then b.opening[o.user := o.balance] else b.opening
  {
  }

  lemma LostKeepsOpening(s: State, w: nat)
    requires Inv(s) && Known(s) && Outbox.WorkerAt(s.base, w).Claimed? && s.base.workers[w].job.user in s.base.opening
    ensures var s' := DoUpdateLost(s, w);
      && Known(s') && s'.base.opening.Keys == s'.opening.Keys
      && forall u :: u in s'.opening ==> s'.base.opening[u] == s'.opening[u] + SumBy(s'.lost, PaidTo(u))
  {
    hide Outbox.Inv;
    forall u ensures SumBy(s.lost + [s.base.workers[w].job], PaidTo(u)) ==
      SumBy(s.lost, PaidTo(u)) + PaidTo(u)(s.base.workers[w].job)
    {
      SumByAppend(s.lost, s.base.workers[w].job, PaidTo(u));
    }
    hide SumBy;
  }

  lemma {:induction false} RunKeeps(s: State, steps: seq<Step>)
    requires Inv(s) && Known(s)
    ensures Inv(Exec(s, steps)) && Known(Exec(s, steps))
    decreases |steps|
  {
    if steps != [] {
      StepKeeps(s, steps[0]);
      hide Apply, Inv, Known;
      RunKeeps(Apply(s, steps[0]), steps[1..]);
    }
  }

  lemma {:induction false} OnceInLog(log: seq<string>, e: string)
    requires Outbox.NoDup(log)
    ensures SumBy(log, Is(e)) == if e in log then 1 else 0
  {
    if log != [] {
      OnceInLog(log[..|log| - 1], e);
      assert log == log[..|log| - 1] + [log[|log| - 1]];
    }
  }

  /**
   Over every run, lost answers included: each event is credited at most once more than it lost
   answers, pending rows have no answered credit and done rows have one, and every balance is its
   opening value plus the deltas of the answered credits plus those of the lost ones.
   */
  lemma LostAnswersAreAllThatRepeats(opening: map<string, nat>, steps: seq<Step>)
    ensures var s := Exec(Init(opening), steps);
      && (forall e :: Credits(s, e) <= 1 + SumBy(s.lost, IsJob(e)))
      && (forall i :: 0 <= i < |s.base.rows| ==>
            var r := s.base.rows[i];
            && (r.status.Pending? ==> Credits(s, r.event) == SumBy(s.lost, IsJob(r.event)))
            && (r.status.Done? ==> Credits(s, r.event) == 1 + SumBy(s.lost, IsJob(r.event))))
      && (forall u :: u in s.base.balances ==>
            && u in s.opening && s.base.balances[u] >= 0
            && s.base.balances[u] ==
               s.opening[u] + SumBy(s.base.rows, Outbox.Credited(s.base.log, u)) + SumBy(s.lost, PaidTo(u)))
  {
    OutboxRuns.InitHolds(opening);
    RunKeeps(Init(opening), steps);
    var s := Exec(Init(opening), steps);
    forall e ensures SumBy(s.base.log, Is(e)) == if e in s.base.log then 1 else 0 {
      OnceInLog(s.base.log, e);
    }
    hide SumBy, Exec;
  }

  // ---------- at most once ----------

  predicate NoneLost(steps: seq<Step>) {
    forall i :: 0 <= i < |steps| ==> !steps[i].UpdateLost?
  }

  lemma {:induction false} NothingLost(s: State, steps: seq<Step>)
    requires s.lost == [] && NoneLost(steps)
    ensures Exec(s, steps).lost == []
    decreases |steps|
  {
    if steps != [] {
      NothingLost(Apply(s, steps[0]), steps[1..]);
    }
  }

  /** The answer is lost, the row goes back to pending, and the next competitor pays again. */
  const TWICE_STEPS: seq<Step> :=
    [Do(Outbox.Append("e", "u", 1, 0)), Do(Outbox.Spawn(0)), Do(Outbox.Claim(0, Outbox.Ok)), UpdateLost(0)] +
    [Do(Outbox.Requeue(0, Outbox.Ok)), Do(Outbox.Spawn(0)), Do(Outbox.Claim(1, Outbox.Ok)), Do(Outbox.Update(1, false))]

  lemma ExecFour(s: State, a: Step, b: Step, c: Step, d: Step, rest: seq<Step>)
    ensures Exec(s, [a, b, c, d] + rest) == Exec(Apply(Apply(Apply(Apply(s, a), b), c), d), rest)
  {
    hide Apply;
    assert ([a, b, c, d] + rest)[1..] == [b, c, d] + rest;
    assert ([b, c, d] + rest)[1..] == [c, d] + rest;
    assert ([c, d] + rest)[1..] == [d] + rest;
    assert ([d] + rest)[1..] == rest;
    var s1 := Apply(s, a);
    assert Exec(s, [a, b, c, d] + rest) == Exec(s1, [b, c, d] + rest);
    assert Exec(s1, [b, c, d] + rest) == Exec(Apply(s1, b), [c, d] + rest);
    assert Exec(Apply(s1, b), [c, d] + rest) == Exec(Apply(Apply(s1, b), c), [d] + rest);
  }

  /** The one row and the one worker, before anything is paid. */
  predicate Unpaid(s: State, status: Outbox.Status, worker: Outbox.Worker) {
    && s.base.rows == [Outbox.Row("e", "u", 1, status, 0)] && s.base.workers == [worker]
    && s.base.balances == map["u" := 0] && s.base.opening == map["u" := 0] && s.base.log == [] && s.lost == []
  }

  lemma RowSpawned()
    ensures Unpaid(Apply(Apply(Init(map["u" := 0]), TWICE_STEPS[0]), TWICE_STEPS[1]),
                   Outbox.Pending, Outbox.Started(Outbox.Job("e", "u", 1)))
  {
    var s1 := Apply(Init(map["u" := 0]), TWICE_STEPS[0]);
    assert s1.base.rows == [Outbox.Row("e", "u", 1, Outbox.Pending, 0)];
    var s2 := Apply(s1, TWICE_STEPS[1]);
    assert s2.base.workers == [Outbox.Started(Outbox.Job("e", "u", 1))];
  }

  lemma RowClaimed(s: State)
    requires Unpaid(s, Outbox.Pending, Outbox.Started(Outbox.Job("e", "u", 1)))
    ensures Unpaid(Apply(s, TWICE_STEPS[2]), Outbox.Processing, Outbox.Claimed(Outbox.Job("e", "u", 1)))
  {
    var s3 := Apply(s, TWICE_STEPS[2]);
    assert s3.base.rows == [Outbox.Row("e", "u", 1, Outbox.Processing, 0)];
    assert s3.base.workers == [Outbox.Claimed(Outbox.Job("e", "u", 1))];
  }

  lemma FirstHalf()
    ensures var s2 := Apply(Apply(Init(map["u" := 0]), TWICE_STEPS[0]), TWICE_STEPS[1]);
      var s := Apply(Apply(s2, TWICE_STEPS[2]), TWICE_STEPS[3]);
      && s.base.rows == [Outbox.Row("e", "u", 1, Outbox.Processing, 0)]
      && s.base.workers == [Outbox.Refused(Outbox.Job("e", "u", 1))]
      && s.base.balances == map["u" := 1] && s.base.log == [] && s.lost == [Outbox.Job("e", "u", 1)]
  {
    hide Apply, Init;
    var s2 := Apply(Apply(Init(map["u" := 0]), TWICE_STEPS[0]), TWICE_STEPS[1]);
    RowSpawned();
    RowClaimed(s2);
    PaidWithoutAnswer(Apply(s2, TWICE_STEPS[2]));
  }

  lemma PaidWithoutAnswer(s: State)
    requires s.base.workers == [Outbox.Claimed(Outbox.Job("e", "u", 1))]
    requires s.base.balances == map["u" := 0] && s.base.opening == map["u" := 0] && s.lost == []
    ensures var s' := Apply(s, UpdateLost(0));
      && s'.base.rows == s.base.rows && s'.base.log == s.base.log
      && s'.base.workers == [Outbox.Refused(Outbox.Job("e", "u", 1))]
      && s'.base.balances == map["u" := 1] && s'.lost == [Outbox.Job("e", "u", 1)]
  {
  }

  lemma SecondHalf(s: State)
    requires s.base.rows == [Outbox.Row("e", "u", 1, Outbox.Processing, 0)]
    requires s.base.workers == [Outbox.Refused(Outbox.Job("e", "u", 1))]
    requires s.base.balances == map["u" := 1] && s.base.log == [] && s.lost == [Outbox.Job("e", "u", 1)]
    ensures var s' := Apply(Apply(Apply(Apply(s, TWICE_STEPS[4]), TWICE_STEPS[5]), TWICE_STEPS[6]), TWICE_STEPS[7]);
      s'.base.log == ["e"] && s'.lost == s.lost
  {
    var s1 := Apply(s, TWICE_STEPS[4]);
    assert s1.base.rows == [Outbox.Row("e", "u", 1, Outbox.Pending, 0)];
    assert s1.base.workers == [Outbox.Dead];
    var s2 := Apply(s1, TWICE_STEPS[5]);
    assert s2.base.workers == [Outbox.Dead, Outbox.Started(Outbox.Job("e", "u", 1))];
    var s3 := Apply(s2, TWICE_STEPS[6]);
    assert s3.base.workers == [Outbox.Dead, Outbox.Claimed(Outbox.Job("e", "u", 1))];
    assert s3.base.balances == map["u" := 1];
  }

  lemma TwiceCreditsTwice()
    ensures Credits(Exec(Init(map["u" := 0]), TWICE_STEPS), "e") == 2
  {
    var s0 := Init(map["u" := 0]);
    FirstHalf();
    var s := Apply(Apply(Apply(Apply(s0, TWICE_STEPS[0]), TWICE_STEPS[1]), TWICE_STEPS[2]), TWICE_STEPS[3]);
    SecondHalf(s);
    hide Apply;
    ExecFour(s0, TWICE_STEPS[0], TWICE_STEPS[1], TWICE_STEPS[2], TWICE_STEPS[3],
             [TWICE_STEPS[4], TWICE_STEPS[5], TWICE_STEPS[6], TWICE_STEPS[7]]);
    ExecFour(s, TWICE_STEPS[4], TWICE_STEPS[5], TWICE_STEPS[6], TWICE_STEPS[7], []);
    assert [TWICE_STEPS[4], TWICE_STEPS[5], TWICE_STEPS[6], TWICE_STEPS[7]] + []
        == [TWICE_STEPS[4], TWICE_STEPS[5], TWICE_STEPS[6], TWICE_STEPS[7]];
    assert TWICE_STEPS == [TWICE_STEPS[0], TWICE_STEPS[1], TWICE_STEPS[2], TWICE_STEPS[3]]
                       + [TWICE_STEPS[4], TWICE_STEPS[5], TWICE_STEPS[6], TWICE_STEPS[7]];
    SumByAppend([], "e", Is("e"));
    SumByAppend([], Outbox.Job("e", "u", 1), IsJob("e"));
    assert [] + ["e"] == ["e"] && [] + [Outbox.Job("e", "u", 1)] == [Outbox.Job("e", "u", 1)];
  }

  /** Every run credits every event at most once, exactly when UpdatePoints never reports an error for a change it made. */
  lemma AtMostOnceIffNoAnswerLost(lossy: bool)
    ensures (forall opening: map<string, nat>, steps, e ::
               lossy || NoneLost(steps) ==> Credits(Exec(Init(opening), steps), e) <= 1)
            <==> !lossy
  {
    if lossy {
      TwiceCreditsTwice();
      var opening: map<string, nat> := map["u" := 0];
      assert Credits(Exec(Init(opening), TWICE_STEPS), "e") > 1;
    } else {
      forall opening: map<string, nat>, steps, e | NoneLost(steps) ensures Credits(Exec(Init(opening), steps), e) <= 1 {
        NothingLost(Init(opening), steps);
        LostAnswersAreAllThatRepeats(opening, steps);
      }
    }
  }
}
