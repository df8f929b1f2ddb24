/** What the outbox guarantees over whole runs, and the one place where it loses liveness. */
module OutboxRuns {
  import opened Sums
  import opened Outbox

  lemma InitHolds(opening: map<string, nat>)
    ensures Inv(Init(opening))
  {
  }

  /**
   Over every interleaving of workers, deliveries, relay passes, errors and crashes: no event is
   credited twice, pending rows are not credited, done rows are, and every balance is non-negative
   and equals its opening value plus the deltas of exactly the credited rows.
   */
  lemma AppliedAtMostOnceAndConserved(opening: map<string, nat>, steps: seq<Step>)
    ensures var s := Exec(Init(opening), steps);
      && NoDup(s.log)
      && (forall i :: 0 <= i < |s.rows| ==>
            && (s.rows[i].status.Pending? ==> s.rows[i].event !in s.log)
            && (s.rows[i].status.Done? ==> s.rows[i].event in s.log))
      && (forall u :: u in s.balances ==>
            && u in s.opening
            && s.balances[u] == s.opening[u] + SumBy(s.rows, Credited(s.log, u))
            && s.balances[u] >= 0)
  {
    InitHolds(opening);
    RunKeeps(Init(opening), steps);
  }

  lemma {:induction false} ExecConcat(s: State, a: seq<Step>, b: seq<Step>)
    ensures Exec(s, a + b) == Exec(Exec(s, a), b)
    decreases |a|
  {
    if a == [] {
      assert a + b == b;
    } else {
      ExecConcat(Apply(s, a[0]), a[1..], b);
      assert (a + b)[1..] == a[1..] + b;
    }
  }

  lemma ExecFirst(s: State, step: Step, rest: seq<Step>)
    ensures Exec(s, [step] + rest) == Exec(Apply(s, step), rest)
  {
    assert ([step] + rest)[1..] == rest;
  }

  lemma StepKeepsHistory(s: State, step: Step)
    requires Inv(s)
    ensures s.log <= Apply(s, step).log
    ensures |s.rows| <= |Apply(s, step).rows|
    ensures forall i :: 0 <= i < |s.rows| ==>
      && Apply(s, step).rows[i] == s.rows[i].(status := Apply(s, step).rows[i].status)
      && (s.rows[i].status.Done? ==> Apply(s, step).rows[i].status.Done?)
  {
  }

  /** Nothing is ever un-credited: credits are only added, rows keep their arguments, and done is final. */
  lemma {:induction false} HistoryOnlyGrows(s: State, steps: seq<Step>)
    requires Inv(s)
    ensures s.log <= Exec(s, steps).log
    ensures |s.rows| <= |Exec(s, steps).rows|
    ensures forall i :: 0 <= i < |s.rows| ==>
      && Exec(s, steps).rows[i] == s.rows[i].(status := Exec(s, steps).rows[i].status)
      && (s.rows[i].status.Done? ==> Exec(s, steps).rows[i].status.Done?)
    decreases |steps|
  {
    if steps != [] {
      StepKeeps(s, steps[0]);
      StepKeepsHistory(s, steps[0]);
      HistoryOnlyGrows(Apply(s, steps[0]), steps[1..]);
    }
  }

  // ---------- rows that nobody can finish ----------

  predicate Held(s: State, e: string) {
    exists w :: 0 <= w < |s.workers| && s.workers[w].Holds() && s.workers[w].job.event == e
  }

  /** A row left in processing with no live holder and no credit. */
  predicate Orphan(s: State, i: nat) {
    i < |s.rows| && s.rows[i].status.Processing? && s.rows[i].event !in s.log && !Held(s, s.rows[i].event)
  }

  /** A step never touches an orphan's row: whoever moves a row started from pending or holds it. */
  lemma StepLeavesOrphanRow(s: State, step: Step, i: nat)
    requires Inv(s) && Orphan(s, i)
    ensures i < |Apply(s, step).rows| && Apply(s, step).rows[i] == s.rows[i]
    ensures s.rows[i].event !in Apply(s, step).log
  {
    FindIs(s.rows, i);
  }

  lemma StepMakesNoHolder(s: State, step: Step, i: nat)
    requires Inv(s) && Orphan(s, i)
    ensures !Held(Apply(s, step), s.rows[i].event)
  {
    FindIs(s.rows, i);
    var s' := Apply(s, step);
    forall w | 0 <= w < |s'.workers| && s'.workers[w].Holds() ensures s'.workers[w].job.event != s.rows[i].event {
      assert w < |s.workers|;
      assert s.workers[w].Started? || s.workers[w].Holds();
      assert s.workers[w].job == s'.workers[w].job;
    }
  }

  lemma StepKeepsOrphan(s: State, step: Step, i: nat)
    requires Inv(s) && Orphan(s, i)
    ensures Orphan(Apply(s, step), i)
    ensures Apply(s, step).rows[i] == s.rows[i]
  {
    StepLeavesOrphanRow(s, step, i);
    StepMakesNoHolder(s, step, i);
  }

  lemma {:induction false} OrphanForever(s: State, i: nat, steps: seq<Step>)
    requires Inv(s) && Orphan(s, i)
    ensures Orphan(Exec(s, steps), i) && Exec(s, steps).rows[i] == s.rows[i]
    decreases |steps|
  {
    if steps != [] {
      StepKeeps(s, steps[0]);
      StepKeepsOrphan(s, steps[0], i);
      OrphanForever(Apply(s, steps[0]), i, steps[1..]);
    }
  }

  /** A process that dies between Claim and UpdatePoints strands its row: no later run ever credits or moves it. */
  lemma CrashAfterClaimStrands(s: State, w: nat, steps: seq<Step>)
    requires Inv(s) && WorkerAt(s, w).Claimed?
    ensures var i := Find(s.rows, s.workers[w].job.event);
      && Orphan(Exec(s, [Crash(w)] + steps), i)
      && Exec(s, [Crash(w)] + steps).rows[i] == s.rows[i]
  {
    var i := Find(s.rows, s.workers[w].job.event);
    StepKeeps(s, Crash(w));
    ExecFirst(s, Crash(w), steps);
    OrphanForever(Apply(s, Crash(w)), i, steps);
  }

  // ---------- rows that somebody can finish ----------

  predicate Credits(s: State, steps: seq<Step>, e: string) {
    e in Exec(s, steps).log
  }

  lemma FinishFromClaimed(s: State, w: nat)
    requires Inv(s) && WorkerAt(s, w).Claimed? && CanPay(s.balances, s.workers[w].job.user, s.workers[w].job.delta)
    ensures Credits(s, [Update(w, false)], s.workers[w].job.event)
  {
    ExecFirst(s, Update(w, false), []);
    var log := Apply(s, Update(w, false)).log;
    assert log[|log| - 1] == s.workers[w].job.event;
  }

  lemma FinishFromPending(s: State, i: nat)
    requires Inv(s) && i < |s.rows| && s.rows[i].status.Pending? && CanPay(s.balances, s.rows[i].user, s.rows[i].delta)
    ensures Credits(s, [Spawn(i)] + ([Claim(|s.workers|, Ok)] + [Update(|s.workers|, false)]), s.rows[i].event)
  {
    var w := |s.workers|;
    FindIs(s.rows, i);
    var s1 := Apply(s, Spawn(i));
    var s2 := Apply(s1, Claim(w, Ok));
    StepKeeps(s, Spawn(i));
    StepKeeps(s1, Claim(w, Ok));
    FinishFromClaimed(s2, w);
    ExecFirst(s1, Claim(w, Ok), [Update(w, false)]);
    ExecFirst(s, Spawn(i), [Claim(w, Ok)] + [Update(w, false)]);
  }

  /** With the balance there, a row can still be credited exactly when it is credited already, pending, or held. */
  lemma CreditableIffNotOrphaned(s: State, i: nat)
    requires Inv(s) && i < |s.rows| && CanPay(s.balances, s.rows[i].user, s.rows[i].delta)
    ensures (exists steps :: Credits(s, steps, s.rows[i].event))
       <==> s.rows[i].event in s.log || s.rows[i].status.Pending? || Held(s, s.rows[i].event)
  {
    var e := s.rows[i].event;
    FindIs(s.rows, i);
    if e in s.log {
      assert Exec(s, []) == s;
      assert Credits(s, [], e);
    } else if s.rows[i].status.Pending? {
      FinishFromPending(s, i);
    } else if Held(s, e) {
      var w: nat :| w < |s.workers| && s.workers[w].Holds() && s.workers[w].job.event == e;
      if s.workers[w].Claimed? {
        FinishFromClaimed(s, w);
      } else {
        var s1 := Apply(s, Requeue(w, Ok));
        StepKeeps(s, Requeue(w, Ok));
        FinishFromPending(s1, i);
        assert s.workers[w].Refused?;
        var rest := [Spawn(i)] + ([Claim(|s1.workers|, Ok)] + [Update(|s1.workers|, false)]);
        ExecFirst(s, Requeue(w, Ok), rest);
        assert Credits(s, [Requeue(w, Ok)] + rest, e);
      }
    } else {
      forall steps ensures !Credits(s, steps, e) {
        OrphanForever(s, i, steps);
      }
    }
  }
}
