/**
 The points outbox: the row state machine of the repository, the conditional balance
 update, and the interleaved runs of every competitor that applies outbox rows.

 One SQL statement is one atomic step. Between two statements of one tryApply any other
 competitor may run, and the process may die.
 */
module Outbox {
  import opened Sums

  datatype Status = Pending | Processing | Done

  /** A points_outbox row; its position in the table is its auto-increment id. */
  datatype Row = Row(event: string, user: string, delta: int, status: Status, created: int)

  /** How one status statement went: Err(took) reports an error, took says whether the row changed all the same. */
  datatype Outcome = Ok | Err(took: bool)

  // ---------- statements over the tables ----------

  /** The row that a WHERE event_id = e selects, or -1; event_id is a unique index. */
  function Find(rows: seq<Row>, e: string): (i: int)
    ensures -1 <= i < |rows|
    ensures i >= 0 ==> rows[i].event == e
    ensures i < 0 ==> forall j :: 0 <= j < |rows| ==> rows[j].event != e
  {
    if rows == [] then -1
    else if rows[|rows| - 1].event == e then |rows| - 1
    else Find(rows[..|rows| - 1], e)
  }

  predicate UniqueEvents(rows: seq<Row>) {
    forall i, j :: 0 <= i < j < |rows| ==> rows[i].event != rows[j].event
  }

  predicate Selects(rows: seq<Row>, e: string, from: Status) {
    var i := Find(rows, e);
    i >= 0 && rows[i].status == from
  }

  /** UPDATE points_outbox SET status = to WHERE event_id = e AND status = from. */
  function Move(rows: seq<Row>, e: string, from: Status, to: Status): seq<Row> {
    if Selects(rows, e, from) then
      var i := Find(rows, e);
      rows[i := rows[i].(status := to)]
    else rows
  }

  function MoveOutcome(rows: seq<Row>, e: string, from: Status, to: Status, o: Outcome): seq<Row> {
    if o.Ok? || o.took then Move(rows, e, from, to) else rows
  }

  /** The WHERE clause of UpdatePoints: the user exists and can bear the amount. */
  predicate CanPay(balances: map<string, int>, user: string, amount: int) {
    user in balances && balances[user] >= -amount
  }

  function Pay(balances: map<string, int>, user: string, amount: int): map<string, int> {
    if CanPay(balances, user, amount) then balances[user := balances[user] + amount] else balances
  }

  // ---------- interleaved runs ----------

  /** The arguments of one tryApply call. */
  datatype Job = Job(event: string, user: string, delta: int)

  /** Where one competitor (async worker, consumer delivery or relay pass) stands inside tryApply. */
  datatype Worker =
    | Dead
    | Started(job: Job)
    | Claimed(job: Job)
    | Applied(job: Job)
    | Refused(job: Job)
  {
    /** Between a successful Claim and the statement that gives the row up. */
    predicate Holds() { Claimed? || Applied? || Refused? }
  }

  /**
   opening is the balance each user started from and log lists, in order, the event of
   every UpdatePoints that succeeded; neither is read by the program.
   */
  datatype State = State(
    rows: seq<Row>,
    balances: map<string, int>,
    opening: map<string, int>,
    log: seq<string>,
    workers: seq<Worker>)

  datatype Step =
    | AddUser(user: string, balance: nat)
    | Append(event: string, user: string, delta: int, created: int)
    | Spawn(row: nat)
    | Claim(w: nat, outcome: Outcome)
    | Update(w: nat, down: bool)
    | MarkDone(w: nat, outcome: Outcome)
    | Requeue(w: nat, outcome: Outcome)
    | Crash(w: nat)

  function Init(balances: map<string, nat>): State {
    State([], balances, balances, [], [])
  }

  function WorkerAt(s: State, w: nat): Worker {
    if w < |s.workers| then s.workers[w] else Dead
  }

  function SetWorker(s: State, w: nat, k: Worker): State
    requires w < |s.workers|
  {
    s.(workers := s.workers[w := k])
  }

  function DoAppend(s: State, event: string, user: string, delta: int, created: int): State {
    if Find(s.rows, event) >= 0 then s  // the unique index rejects the transaction
    else s.(rows := s.rows + [Row(event, user, delta, Pending, created)])
  }

  function DoClaim(s: State, w: nat, o: Outcome): State
    requires w < |s.workers| && s.workers[w].Started?
  {
    var job := s.workers[w].job;
    var claimed := o.Ok? && Selects(s.rows, job.event, Pending);
    SetWorker(s.(rows := MoveOutcome(s.rows, job.event, Pending, Processing, o)), w,
              if claimed then Claimed(job) else Dead)
  }

  function DoUpdate(s: State, w: nat, down: bool): State
    requires w < |s.workers| && s.workers[w].Claimed?
  {
    var job := s.workers[w].job;
    if down || !CanPay(s.balances, job.user, job.delta) then SetWorker(s, w, Refused(job))
    else SetWorker(s.(balances := Pay(s.balances, job.user, job.delta), log := s.log + [job.event]), w, Applied(job))
  }

  function DoLeave(s: State, w: nat, to: Status, o: Outcome): State
    requires w < |s.workers| && !s.workers[w].Dead?
  {
    SetWorker(s.(rows := MoveOutcome(s.rows, s.workers[w].job.event, Processing, to, o)), w, Dead)
  }

  /** One step; a step that is not enabled changes nothing. */
  function Apply(s: State, step: Step): State {
    match step
    case AddUser(user, balance) =>
      if user in s.balances then s
      else s.(balances := s.balances[user := balance], opening := s.opening[user := balance])
    case Append(event, user, delta, created) => DoAppend(s, event, user, delta, created)
    case Spawn(i) =>
      if i < |s.rows| then
        s.(workers := s.workers + [Started(Job(s.rows[i].event, s.rows[i].user, s.rows[i].delta))])
      else s
    case Claim(w, o) => if WorkerAt(s, w).Started? then DoClaim(s, w, o) else s
    case Update(w, down) => if WorkerAt(s, w).Claimed? then DoUpdate(s, w, down) else s
    case MarkDone(w, o) => if WorkerAt(s, w).Applied? then DoLeave(s, w, Done, o) else s
    case Requeue(w, o) => if WorkerAt(s, w).Refused? then DoLeave(s, w, Pending, o) else s
    case Crash(w) => if WorkerAt(s, w).Dead? then s else SetWorker(s, w, Dead)
  }

  function Exec(s: State, steps: seq<Step>): State
    decreases |steps|
  {
    if steps == [] then s else Exec(Apply(s, steps[0]), steps[1..])
  }

  // ---------- the invariant ----------

  predicate NoDup(log: seq<string>) {
    forall i, j :: 0 <= i < j < |log| ==> log[i] != log[j]
  }

  /** What row r has put on u's balance, given which events were applied. */
  function Credited(log: seq<string>, u: string): Row -> int {
    (r: Row) => if r.user == u && r.event in log then r.delta else 0
  }

  /** The log names each applied row once, and agrees with the statuses. */
  ghost predicate LogInv(s: State) {
    && UniqueEvents(s.rows)
    && NoDup(s.log)
    && (forall k :: 0 <= k < |s.log| ==> Find(s.rows, s.log[k]) >= 0)
    && (forall i :: 0 <= i < |s.rows| ==>
          && (s.rows[i].status.Pending? ==> s.rows[i].event !in s.log)
          && (s.rows[i].status.Done? ==> s.rows[i].event in s.log))
  }

  predicate JobMatches(rows: seq<Row>, job: Job) {
    var i := Find(rows, job.event);
    i >= 0 && rows[i].user == job.user && rows[i].delta == job.delta
  }

  /** Live workers carry the arguments of a stored row, and a row has at most one holder. */
  ghost predicate WorkerInv(s: State) {
    && (forall w :: 0 <= w < |s.workers| && !s.workers[w].Dead? ==> JobMatches(s.rows, s.workers[w].job))
    && (forall w :: 0 <= w < |s.workers| && s.workers[w].Holds() ==>
          && Selects(s.rows, s.workers[w].job.event, Processing)
          && (s.workers[w].Applied? <==> s.workers[w].job.event in s.log))
    && (forall v, w :: 0 <= v < w < |s.workers| && s.workers[v].Holds() && s.workers[w].Holds() ==>
          s.workers[v].job.event != s.workers[w].job.event)
  }

  /** Every balance is the opening balance plus the deltas of exactly the applied rows, and none is negative. */
  ghost predicate BalanceInv(s: State) {
    && s.balances.Keys == s.opening.Keys
    && (forall u :: u in s.balances ==>
          && s.balances[u] >= 0
          && s.balances[u] == s.opening[u] + SumBy(s.rows, Credited(s.log, u)))
    && (forall k :: 0 <= k < |s.log| ==> var i := Find(s.rows, s.log[k]); i >= 0 ==> s.rows[i].user in s.balances)
  }

  ghost predicate Inv(s: State) {
    LogInv(s) && WorkerInv(s) && BalanceInv(s)
  }

  // ---------- every step keeps it ----------

  lemma FindIs(rows: seq<Row>, i: nat)
    requires UniqueEvents(rows) && i < |rows|
    ensures Find(rows, rows[i].event) == i
  {
  }

  /** A status move changes no event, user or delta, so lookups and sums are as before. */
  lemma MoveFrame(rows: seq<Row>, e: string, from: Status, to: Status)
    requires UniqueEvents(rows)
    ensures var rows' := Move(rows, e, from, to);
      && |rows'| == |rows| && UniqueEvents(rows')
      && (forall i :: 0 <= i < |rows| ==> rows'[i] == rows[i].(status := rows'[i].status))
      && (forall i :: 0 <= i < |rows| ==> rows[i].event != e ==> rows'[i] == rows[i])
      && (forall x :: Find(rows', x) == Find(rows, x))
      && (forall log, u :: SumBy(rows', Credited(log, u)) == SumBy(rows, Credited(log, u)))
  {
    var rows' := Move(rows, e, from, to);
    forall x ensures Find(rows', x) == Find(rows, x) {
      var i := Find(rows, x);
      if i >= 0 { FindIs(rows', i); }
    }
    forall log, u ensures SumBy(rows', Credited(log, u)) == SumBy(rows, Credited(log, u)) {
      SumBySame(rows, rows', Credited(log, u), Credited(log, u));
    }
  }

  lemma AppendKeeps(s: State, event: string, user: string, delta: int, created: int)
    requires Inv(s)
    ensures Inv(DoAppend(s, event, user, delta, created))
  {
    if Find(s.rows, event) < 0 {
      var row := Row(event, user, delta, Pending, created);
      var s' := s.(rows := s.rows + [row]);
      assert s'.rows[..|s.rows|] == s.rows;
      forall x | x != event ensures Find(s'.rows, x) == Find(s.rows, x) {}
      forall u ensures SumBy(s'.rows, Credited(s.log, u)) == SumBy(s.rows, Credited(s.log, u)) {
        SumByAppend(s.rows, row, Credited(s.log, u));
      }
    }
  }

  /** Moving e's row from one status to another, when that agrees with the log. */
  lemma MoveKeepsLog(s: State, e: string, from: Status, to: Status)
    requires LogInv(s)
    requires to.Pending? ==> e !in s.log
    requires to.Done? ==> e in s.log
    ensures LogInv(s.(rows := Move(s.rows, e, from, to)))
  {
    hide SumBy;
    MoveFrame(s.rows, e, from, to);
  }

  lemma MoveKeepsBalances(s: State, e: string, from: Status, to: Status)
    requires LogInv(s) && BalanceInv(s)
    ensures BalanceInv(s.(rows := Move(s.rows, e, from, to)))
  {
    hide SumBy;
    MoveFrame(s.rows, e, from, to);
  }

  lemma ClaimKeepsWorkers(s: State, w: nat, o: Outcome)
    requires LogInv(s) && WorkerInv(s) && w < |s.workers| && s.workers[w].Started?
    ensures WorkerInv(DoClaim(s, w, o))
  {
    hide SumBy, Find;
    MoveFrame(s.rows, s.workers[w].job.event, Pending, Processing);
  }

  lemma ClaimKeeps(s: State, w: nat, o: Outcome)
    requires Inv(s) && w < |s.workers| && s.workers[w].Started?
    ensures Inv(DoClaim(s, w, o))
  {
    hide WorkerInv;
    var e := s.workers[w].job.event;
    MoveKeepsLog(s, e, Pending, Processing);
    MoveKeepsBalances(s, e, Pending, Processing);
    ClaimKeepsWorkers(s, w, o);
  }

  lemma UpdateKeepsBalances(s: State, w: nat)
    requires Inv(s) && w < |s.workers| && s.workers[w].Claimed?
    requires var job := s.workers[w].job; CanPay(s.balances, job.user, job.delta)
    ensures BalanceInv(DoUpdate(s, w, false))
  {
    var job := s.workers[w].job;
    var s' := DoUpdate(s, w, false);
    var i := Find(s.rows, job.event);
    forall u | u in s.balances
      ensures SumBy(s.rows, Credited(s'.log, u))
           == SumBy(s.rows, Credited(s.log, u)) + (if u == job.user then job.delta else 0)
    {
      SumByDiff(s.rows, s.rows, Credited(s.log, u), Credited(s'.log, u), i);
    }
  }

  lemma UpdateKeepsLog(s: State, w: nat, down: bool)
    requires LogInv(s) && WorkerInv(s) && w < |s.workers| && s.workers[w].Claimed?
    ensures LogInv(DoUpdate(s, w, down))
  {
    hide Find;
    assert s.workers[w].job.event !in s.log;
  }

  lemma UpdateKeepsWorkers(s: State, w: nat, down: bool)
    requires LogInv(s) && WorkerInv(s) && w < |s.workers| && s.workers[w].Claimed?
    ensures WorkerInv(DoUpdate(s, w, down))
  {
    hide Find;
    var s' := DoUpdate(s, w, down);
    forall v | 0 <= v < |s'.workers| && s'.workers[v].Holds()
      ensures s'.workers[v].Applied? <==> s'.workers[v].job.event in s'.log
    {
    }
  }

  lemma UpdateKeeps(s: State, w: nat, down: bool)
    requires Inv(s) && w < |s.workers| && s.workers[w].Claimed?
    ensures Inv(DoUpdate(s, w, down))
  {
    UpdateKeepsLog(s, w, down);
    UpdateKeepsWorkers(s, w, down);
    hide LogInv, WorkerInv;
    var job := s.workers[w].job;
    if !down && CanPay(s.balances, job.user, job.delta) {
      UpdateKeepsBalances(s, w);
    }
  }

  lemma LeaveKeepsWorkers(s: State, w: nat, to: Status, o: Outcome)
    requires LogInv(s) && WorkerInv(s) && w < |s.workers| && s.workers[w].Holds()
    ensures WorkerInv(DoLeave(s, w, to, o))
  {
    hide SumBy, Find;
    MoveFrame(s.rows, s.workers[w].job.event, Processing, to);
  }

  lemma LeaveKeeps(s: State, w: nat, to: Status, o: Outcome)
    requires Inv(s) && w < |s.workers|
    requires (s.workers[w].Applied? && to.Done?) || (s.workers[w].Refused? && to.Pending?)
    ensures Inv(DoLeave(s, w, to, o))
  {
    var e := s.workers[w].job.event;
    MoveKeepsLog(s, e, Processing, to);
    MoveKeepsBalances(s, e, Processing, to);
    LeaveKeepsWorkers(s, w, to, o);
  }

  lemma AddUserKeeps(s: State, user: string, balance: nat)
    requires Inv(s)
    ensures Inv(Apply(s, AddUser(user, balance)))
  {
    if user !in s.balances {
      forall r | r in s.rows ensures Credited(s.log, user)(r) == 0 {
        var i :| 0 <= i < |s.rows| && s.rows[i] == r;
        FindIs(s.rows, i);
      }
      SumByZero(s.rows, Credited(s.log, user));
    }
  }

  lemma SpawnKeeps(s: State, i: nat)
    requires Inv(s) && i < |s.rows|
    ensures Inv(Apply(s, Spawn(i)))
  {
    FindIs(s.rows, i);
  }

  lemma CrashKeeps(s: State, w: nat)
    requires Inv(s)
    ensures Inv(Apply(s, Crash(w)))
  {
  }

  lemma StepKeeps(s: State, step: Step)
    requires Inv(s)
    ensures Inv(Apply(s, step))
  {
    hide Inv, DoAppend, DoClaim, DoUpdate, DoLeave;
    match step
    case AddUser(user, balance) => AddUserKeeps(s, user, balance);
    case Append(event, user, delta, created) => AppendKeeps(s, event, user, delta, created);
    case Spawn(i) => if i < |s.rows| { SpawnKeeps(s, i); }
    case Claim(w, o) => if WorkerAt(s, w).Started? { ClaimKeeps(s, w, o); }
    case Update(w, down) => if WorkerAt(s, w).Claimed? { UpdateKeeps(s, w, down); }
    case MarkDone(w, o) => if WorkerAt(s, w).Applied? { LeaveKeeps(s, w, Done, o); }
    case Requeue(w, o) => if WorkerAt(s, w).Refused? { LeaveKeeps(s, w, Pending, o); }
    case Crash(w) => CrashKeeps(s, w);
  }

  lemma {:induction false} RunKeeps(s: State, steps: seq<Step>)
    requires Inv(s)
    ensures Inv(Exec(s, steps))
    decreases |steps|
  {
    if steps != [] {
      StepKeeps(s, steps[0]);
      RunKeeps(Apply(s, steps[0]), steps[1..]);
    }
  }
}
