/** The applier and its two repositories as the program writes them, and the relay that drains what is left pending. */
module OutboxApplier {
  import opened Sums
  import opened Outbox
  import opened OutboxRuns

  /** How the statements of one tryApply go: down makes UpdatePoints fail without touching the balance. */
  datatype Faults = Faults(claim: Outcome, down: bool, mark: Outcome, requeue: Outcome)

  const NO_FAULTS := Faults(Ok, false, Ok, Ok)

  datatype Tables = Tables(rows: seq<Row>, balances: map<string, int>)

  /** One undisturbed tryApply: the tables after it, and its answer. */
  function TryApplied(t: Tables, job: Job, f: Faults): (Tables, bool) {
    var claimed := MoveOutcome(t.rows, job.event, Pending, Processing, f.claim);
    if !f.claim.Ok? || !Selects(t.rows, job.event, Pending) then (t.(rows := claimed), false)
    else if f.down || !CanPay(t.balances, job.user, job.delta) then
      (t.(rows := MoveOutcome(claimed, job.event, Processing, Pending, f.requeue)), false)
    else
      (Tables(MoveOutcome(claimed, job.event, Processing, Done, f.mark), Pay(t.balances, job.user, job.delta)), true)
  }

  lemma ExecFour(s: State, a: Step, b: Step, c: Step, d: Step)
    ensures Exec(s, [a] + ([b] + ([c] + [d]))) == Apply(Apply(Apply(Apply(s, a), b), c), d)
  {
    hide Apply;
    ExecFirst(s, a, [b] + ([c] + [d]));
    ExecFirst(Apply(s, a), b, [c] + [d]);
    ExecFirst(Apply(Apply(s, a), b), c, [d]);
    ExecFirst(Apply(Apply(Apply(s, a), b), c), d, []);
    assert [d] + [] == [d];
  }

  /** An undisturbed tryApply is one of the interleaved runs: the one whose four statements follow each other. */
  lemma TryAppliedIsARun(s: State, w: nat, f: Faults)
    requires WorkerAt(s, w).Started?
    ensures var s' := Exec(s, [Claim(w, f.claim)] + ([Update(w, f.down)] + ([MarkDone(w, f.mark)] + [Requeue(w, f.requeue)])));
      var (t, applied) := TryApplied(Tables(s.rows, s.balances), s.workers[w].job, f);
      && Tables(s'.rows, s'.balances) == t
      && s'.workers == s.workers[w := Dead]
      && s'.log == if applied then s.log + [s.workers[w].job.event] else s.log
  {
    hide Find, Exec, MoveOutcome;
    var s1 := Apply(s, Claim(w, f.claim));
    var s2 := Apply(s1, Update(w, f.down));
    var s3 := Apply(s2, MarkDone(w, f.mark));
    ExecFour(s, Claim(w, f.claim), Update(w, f.down), MarkDone(w, f.mark), Requeue(w, f.requeue));
    if s1.workers[w].Dead? {
      assert s3 == s1;
    } else if s2.workers[w].Refused? {
      assert s3 == s2;
    } else {
      assert s3.workers[w].Dead?;
    }
  }

  // ---------- the relay ----------

  /** Aged rows: pending, and created before the grace limit. */
  predicate IsAged(r: Row, before: int) {
    r.status.Pending? && r.created < before
  }

  /** The aged rows in id order. */
  function Aged(rows: seq<Row>, before: int): (aged: seq<Row>)
    ensures forall r :: r in aged <==> r in rows && IsAged(r, before)
  {
    if rows == [] then []
    else
      var last := rows[|rows| - 1];
      Aged(rows[..|rows| - 1], before) + (if IsAged(last, before) then [last] else [])
  }

  function Take<T>(s: seq<T>, n: nat): seq<T> {
    if |s| <= n then s else s[..n]
  }

  function JobOf(r: Row): Job {
    Job(r.event, r.user, r.delta)
  }

  /** tryApply over a batch read earlier, in order. */
  function Relayed(t: Tables, batch: seq<Row>, faults: nat -> Faults): Tables {
    if batch == [] then t
    else TryApplied(Relayed(t, batch[..|batch| - 1], faults), JobOf(batch[|batch| - 1]), faults(|batch| - 1)).0
  }

  /** Of the rows of event e, those with status from have status to; nothing else is different. */
  predicate OnlyMoves(p: seq<Row>, q: seq<Row>, e: string, from: Status, to: Status) {
    && |q| == |p|
    && forall i :: 0 <= i < |p| && (p[i].event != e || UniqueEvents(p)) ==>
         q[i] == if p[i].event == e && p[i].status == from then p[i].(status := to) else p[i]
  }

  class PointsOutboxRepository {
    var rows: seq<Row>

    constructor ()
      ensures rows == []
    {
      rows := [];
    }

    method AppendInTx(event: string, user: string, delta: int, created: int) returns (ok: bool)
      modifies this
      ensures ok <==> forall r :: r in old(rows) ==> r.event != event
      ensures rows == if ok then old(rows) + [Row(event, user, delta, Pending, created)] else old(rows)
    {
      ok := Find(rows, event) < 0;
      if ok {
        rows := rows + [Row(event, user, delta, Pending, created)];
      }
    }

    /** UPDATE ... WHERE event_id = e AND status = from; affected is RowsAffected == 1. */
    method UpdateStatus(e: string, from: Status, to: Status) returns (affected: bool)
      modifies this
      ensures rows == Move(old(rows), e, from, to)
      ensures affected <==> Selects(old(rows), e, from)
      ensures OnlyMoves(old(rows), rows, e, from, to)
    {
      var i := Find(rows, e);
      affected := i >= 0 && rows[i].status == from;
      if affected {
        rows := rows[i := rows[i].(status := to)];
      }
    }

    method Claim(e: string, o: Outcome) returns (claimed: bool)
      modifies this
      ensures rows == MoveOutcome(old(rows), e, Pending, Processing, o)
      ensures if o == Err(false) then rows == old(rows) else OnlyMoves(old(rows), rows, e, Pending, Processing)
      ensures claimed <==> o.Ok? && Selects(old(rows), e, Pending)
      ensures UniqueEvents(old(rows)) ==>
        (claimed <==> o.Ok? && exists r :: r in old(rows) && r.event == e && r.status.Pending?)
    {
      claimed := false;
      if o.Ok? || o.took {
        var affected := UpdateStatus(e, Pending, Processing);
        claimed := o.Ok? && affected;
      }
    }

    method MarkDone(e: string, o: Outcome)
      modifies this
      ensures rows == MoveOutcome(old(rows), e, Processing, Done, o)
      ensures if o == Err(false) then rows == old(rows) else OnlyMoves(old(rows), rows, e, Processing, Done)
    {
      if o.Ok? || o.took {
        var _ := UpdateStatus(e, Processing, Done);
      }
    }

    method Requeue(e: string, o: Outcome)
      modifies this
      ensures rows == MoveOutcome(old(rows), e, Processing, Pending, o)
      ensures if o == Err(false) then rows == old(rows) else OnlyMoves(old(rows), rows, e, Processing, Pending)
    {
      if o.Ok? || o.took {
        var _ := UpdateStatus(e, Processing, Pending);
      }
    }

    method PendingOlderThan(before: int, limit: int) returns (batch: seq<Row>)
      ensures batch == Take(Aged(rows, before), if limit <= 0 then 200 else limit)
      ensures |batch| <= (if limit <= 0 then 200 else limit)
      ensures forall r :: r in batch ==> r in rows && r.status.Pending? && r.created < before
      ensures |batch| < (if limit <= 0 then 200 else limit) ==>
        forall r :: r in rows && r.status.Pending? && r.created < before ==> r in batch
    {
      hide Aged;
      NothingAgedYet(rows, before);
      var max := if limit <= 0 then 200 else limit;
      var i := 0;
      batch := [];
      while i < |rows| && |batch| < max
        invariant 0 <= i <= |rows|
        invariant batch == Aged(rows[..i], before) && |batch| <= max
      {
        AgedStep(rows, before, i);
        if IsAged(rows[i], before) {
          batch := batch + [rows[i]];
        }
        i := i + 1;
      }
      AgedPrefix(rows, before, i);
    }
  }

  lemma NothingAgedYet(rows: seq<Row>, before: int)
    ensures Aged(rows[..0], before) == []
  {
  }

  lemma AgedStep(rows: seq<Row>, before: int, i: nat)
    requires i < |rows|
    ensures Aged(rows[..i + 1], before) == Aged(rows[..i], before) + if IsAged(rows[i], before) then [rows[i]] else []
  {
    assert rows[..i + 1][..i] == rows[..i];
  }

  /** What a longer table selects starts with what a shorter one does; the whole table selects everything. */
  lemma {:induction false} AgedPrefix(rows: seq<Row>, before: int, i: nat)
    requires i <= |rows|
    ensures Aged(rows[..i], before) <= Aged(rows, before)
    ensures i == |rows| ==> Aged(rows[..i], before) == Aged(rows, before)
    decreases |rows| - i
  {
    if i < |rows| {
      AgedPrefix(rows, before, i + 1);
      AgedStep(rows, before, i);
    } else {
      assert rows[..i] == rows;
    }
  }

  class UserRepository {
    var balances: map<string, int>

    constructor (balances: map<string, int>)
      ensures this.balances == balances
    {
      this.balances := balances;
    }

    /** The conditional balance update; an error when the database is down or no row is affected. */
    method UpdatePoints(user: string, amount: int, down: bool) returns (ok: bool)
      modifies this
      ensures ok <==> !down && user in old(balances) && old(balances)[user] + amount >= 0
      ensures balances == if ok then old(balances)[user := old(balances)[user] + amount] else old(balances)
    {
      if down || user !in balances || balances[user] < -amount {
        return false;
      }
      balances := balances[user := balances[user] + amount];
      return true;
    }
  }

  class PointsOutboxApplier {
    const outbox: PointsOutboxRepository
    const users: UserRepository

    constructor (outbox: PointsOutboxRepository, users: UserRepository)
      ensures this.outbox == outbox && this.users == users
    {
      this.outbox := outbox;
      this.users := users;
    }

    ghost function View(): Tables
      reads this, outbox, users
    {
      Tables(outbox.rows, users.balances)
    }

    method TryApply(job: Job, f: Faults) returns (applied: bool)
      modifies outbox, users
      ensures (View(), applied) == TryApplied(old(View()), job, f)
    {
      var claimed := outbox.Claim(job.event, f.claim);
      if !claimed {
        return false;
      }
      var ok := users.UpdatePoints(job.user, job.delta, f.down);
      if !ok {
        outbox.Requeue(job.event, f.requeue);
        return false;
      }
      outbox.MarkDone(job.event, f.mark);
      return true;
    }

    /** Nothing happens when the pending rows cannot be read. */
    method RelayOnce(before: int, unreadable: bool, faults: nat -> Faults)
      modifies outbox, users
      ensures View() ==
        if unreadable then old(View()) else Relayed(old(View()), Take(Aged(old(outbox.rows), before), 200), faults)
    {
      hide TryApplied, Aged, OnlyMoves, Take;
      if unreadable {
        return;
      }
      var batch := outbox.PendingOlderThan(before, 200);
      for i := 0 to |batch|
        invariant View() == Relayed(old(View()), batch[..i], faults)
      {
        assert batch[..i + 1][..i] == batch[..i];
        var _ := TryApply(JobOf(batch[i]), faults(i));
      }
      assert batch[..|batch|] == batch;
    }
  }

  // ---------- the relay drains ----------

  /** Deltas are non-negative and every user exists, so nothing stands in the way of a pending row. */
  ghost predicate Payable(t: Tables) {
    && UniqueEvents(t.rows)
    && (forall u :: u in t.balances ==> t.balances[u] >= 0)
    && (forall r :: r in t.rows ==> r.delta >= 0 && r.user in t.balances)
  }

  /** The table once every aged row is done and no other row is touched. */
  function Settled(rows: seq<Row>, before: int): seq<Row> {
    seq(|rows|, i requires 0 <= i < |rows| => if IsAged(rows[i], before) then rows[i].(status := Done) else rows[i])
  }

  /** What r still owes u, counting aged rows only. */
  function Owed(before: int, u: string): Row -> int {
    (r: Row) => if r.user == u && IsAged(r, before) then r.delta else 0
  }

  function AgedCount(before: int): Row -> int {
    (r: Row) => if IsAged(r, before) then 1 else 0
  }

  lemma {:induction false} CountIsLength(rows: seq<Row>, before: int)
    ensures |Aged(rows, before)| == SumBy(rows, AgedCount(before))
  {
    if rows != [] {
      CountIsLength(rows[..|rows| - 1], before);
    }
  }

  /** t' is t after n of its aged rows were paid and marked done, and nothing else happened. */
  ghost predicate Paid(t: Tables, t': Tables, before: int, n: nat) {
    && Payable(t')
    && Settled(t'.rows, before) == Settled(t.rows, before)
    && |Aged(t'.rows, before)| == |Aged(t.rows, before)| - n
    && t'.balances.Keys == t.balances.Keys
    && (forall u :: u in t.balances ==>
          t'.balances[u] + SumBy(t'.rows, Owed(before, u)) == t.balances[u] + SumBy(t.rows, Owed(before, u)))
  }

  /** Alone, a payable row goes from pending to done and its delta is paid. */
  lemma OneApplied(t: Tables, i: nat, before: int)
    requires Payable(t) && i < |t.rows| && IsAged(t.rows[i], before)
    ensures var r := t.rows[i];
      && r.user in t.balances
      && TryApplied(t, JobOf(r), NO_FAULTS) ==
         (Tables(t.rows[i := r.(status := Done)], t.balances[r.user := t.balances[r.user] + r.delta]), true)
  {
    var r := t.rows[i];
    assert r in t.rows;
    FindIs(t.rows, i);
    var claimed := t.rows[i := r.(status := Processing)];
    assert Move(t.rows, r.event, Pending, Processing) == claimed;
    FindIs(claimed, i);
    assert claimed[i := r.(status := Done)] == t.rows[i := r.(status := Done)];
  }

  lemma OnePayable(t: Tables, i: nat, r: Row)
    requires Payable(t) && i < |t.rows| && t.rows[i] == r && r.user in t.balances
    ensures Payable(Tables(t.rows[i := r.(status := Done)], t.balances[r.user := t.balances[r.user] + r.delta]))
  {
    var rows' := t.rows[i := r.(status := Done)];
    forall x | x in rows' ensures x.delta >= 0 && x.user in t.balances {
      var j :| 0 <= j < |rows'| && rows'[j] == x;
      assert t.rows[j] in t.rows;
    }
  }

  /** Marking an aged row done takes it out of the count and out of what its user is owed. */
  lemma DoneOwesNothing(rows: seq<Row>, i: nat, before: int)
    requires i < |rows| && IsAged(rows[i], before)
    ensures var rows' := rows[i := rows[i].(status := Done)];
      && Settled(rows', before) == Settled(rows, before)
      && |Aged(rows', before)| == |Aged(rows, before)| - 1
      && (forall u :: SumBy(rows', Owed(before, u)) ==
            SumBy(rows, Owed(before, u)) - (if rows[i].user == u then rows[i].delta else 0))
  {
    var done := rows[i].(status := Done);
    CountIsLength(rows, before);
    CountIsLength(rows[i := done], before);
    SumByUpdate(rows, i, done, AgedCount(before));
    forall u ensures SumBy(rows[i := done], Owed(before, u))
                  == SumBy(rows, Owed(before, u)) - (if rows[i].user == u then rows[i].delta else 0) {
      SumByUpdate(rows, i, done, Owed(before, u));
    }
  }

  /** t once row i is done and paid. */
  function DoneAt(t: Tables, i: nat): Tables
    requires i < |t.rows| && t.rows[i].user in t.balances
  {
    var r := t.rows[i];
    Tables(t.rows[i := r.(status := Done)], t.balances[r.user := t.balances[r.user] + r.delta])
  }

  lemma OneDone(t: Tables, i: nat, before: int)
    requires Payable(t) && i < |t.rows| && IsAged(t.rows[i], before) && t.rows[i].user in t.balances
    ensures Paid(t, DoneAt(t, i), before, 1)
  {
    OnePayable(t, i, t.rows[i]);
    DoneOwesNothing(t.rows, i, before);
    hide SumBy, Aged, Settled, Payable;
  }

  lemma OneOthersStay(t: Tables, i: nat, x: Row)
    requires i < |t.rows| && t.rows[i].user in t.balances && x in t.rows && x != t.rows[i]
    ensures x in DoneAt(t, i).rows
  {
    var j :| 0 <= j < |t.rows| && t.rows[j] == x;
    assert DoneAt(t, i).rows[j] == x;
  }

  lemma OnePaid(t: Tables, r: Row, before: int)
    requires Payable(t) && r in t.rows && IsAged(r, before)
    ensures Paid(t, TryApplied(t, JobOf(r), NO_FAULTS).0, before, 1)
    ensures forall x :: x in t.rows && x.event != r.event ==> x in TryApplied(t, JobOf(r), NO_FAULTS).0.rows
  {
    hide Paid, TryApplied;
    var i :| 0 <= i < |t.rows| && t.rows[i] == r;
    OneApplied(t, i, before);
    assert TryApplied(t, JobOf(r), NO_FAULTS).0 == DoneAt(t, i);
    OneDone(t, i, before);
    forall x | x in t.rows && x.event != r.event ensures x in DoneAt(t, i).rows {
      OneOthersStay(t, i, x);
    }
  }

  lemma PaidThen(t: Tables, t1: Tables, t2: Tables, before: int, m: nat, n: nat)
    requires Paid(t, t1, before, m) && Paid(t1, t2, before, n)
    ensures Paid(t, t2, before, m + n)
  {
    hide SumBy, Settled, Aged, Payable;
  }

  lemma {:induction false} BatchPaid(t: Tables, batch: seq<Row>, before: int)
    requires Payable(t) && UniqueEvents(batch)
    requires forall r :: r in batch ==> r in t.rows && IsAged(r, before)
    ensures Paid(t, Relayed(t, batch, _ => NO_FAULTS), before, |batch|)
    ensures forall x :: x in t.rows && (forall r :: r in batch ==> r.event != x.event)
              ==> x in Relayed(t, batch, _ => NO_FAULTS).rows
  {
    if batch != [] {
      var init, last := batch[..|batch| - 1], batch[|batch| - 1];
      BatchPaid(t, init, before);
      assert forall r :: r in init ==> r.event != last.event;
      var t1 := Relayed(t, init, _ => NO_FAULTS);
      assert Payable(t1);
      OnePaid(t1, last, before);
      hide Paid, Payable, TryApplied;
      PaidThen(t, t1, TryApplied(t1, JobOf(last), NO_FAULTS).0, before, |init|, 1);
    }
  }

  lemma {:induction false} AgedUnique(rows: seq<Row>, before: int)
    requires UniqueEvents(rows)
    ensures UniqueEvents(Aged(rows, before))
  {
    if rows != [] {
      var init, last := rows[..|rows| - 1], rows[|rows| - 1];
      AgedUnique(init, before);
      forall r | r in Aged(init, before) ensures r.event != last.event {
        var j :| 0 <= j < |init| && init[j] == r;
        assert rows[j] == r;
      }
    }
  }

  function Min(a: nat, b: nat): nat {
    if a <= b then a else b
  }

  /** One pass without errors pays exactly min(200, count) aged rows. */
  lemma PassPays(t: Tables, before: int)
    requires Payable(t)
    ensures Paid(t, Pass(t, before), before, Min(200, |Aged(t.rows, before)|))
  {
    AgedUnique(t.rows, before);
    BatchPaid(t, Take(Aged(t.rows, before), 200), before);
  }

  function Pass(t: Tables, before: int): Tables {
    Relayed(t, Take(Aged(t.rows, before), 200), _ => NO_FAULTS)
  }

  function Passes(t: Tables, before: int, n: nat): Tables
    decreases n
  {
    if n == 0 then t else Passes(Pass(t, before), before, n - 1)
  }

  lemma NothingAged(rows: seq<Row>, before: int)
    requires Aged(rows, before) == []
    ensures Settled(rows, before) == rows
    ensures forall u :: SumBy(rows, Owed(before, u)) == 0
  {
    forall r | r in rows ensures !IsAged(r, before) {}
    forall u ensures SumBy(rows, Owed(before, u)) == 0 {
      SumByZero(rows, Owed(before, u));
    }
  }

  /**
   Enough passes leave every row that was aged at the start done, every other row as it was,
   and every balance raised by exactly the deltas of those rows.
   */
  lemma {:induction false} PassesDrain(t: Tables, before: int, n: nat)
    requires Payable(t) && |Aged(t.rows, before)| <= 200 * n
    ensures var t' := Passes(t, before, n);
      && Aged(t'.rows, before) == []
      && t'.rows == Settled(t.rows, before)
      && t'.balances.Keys == t.balances.Keys
      && (forall u :: u in t.balances ==> t'.balances[u] == t.balances[u] + SumBy(t.rows, Owed(before, u)))
    decreases n
  {
    hide SumBy, Relayed;
    if n == 0 {
      NothingAged(t.rows, before);
    } else {
      PassPays(t, before);
      PassesDrain(Pass(t, before), before, n - 1);
    }
  }
}
