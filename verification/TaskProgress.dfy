/**
 Task progress rows: increments (an insert that does nothing when the row exists, then one
 conditional UPDATE, with up to three tries on deadlock) interleaved with reward claims.
 */
module TaskProgress {
  import opened Sums

  datatype Key = Key(user: string, task: nat, period: string)

  datatype Time = Never | At(t: int)

  datatype Row = Row(progress: int, completed: bool, completedAt: Time, claimed: bool)

  /**
   How a statement goes: a deadlock is rolled back and retried; any other error, with or without effect
   (took), ends the call.
   */
  datatype Outcome = Ok | Deadlock | Error(took: bool)

  /** One IncrProgress call; a lost one ended in an error, which may have hidden its effect (applied). */
  datatype Call =
    | Inserting(key: Key, delta: int, tries: nat)
    | Adding(key: Key, delta: int, tries: nat)
    | Added(key: Key, delta: int)
    | Refused(key: Key, delta: int)
    | Lost(key: Key, delta: int, applied: bool)

  /** target is each task's target value; claims are the ClaimReward calls that took effect. */
  datatype State = State(target: nat -> int, rows: map<Key, Row>, calls: seq<Call>, claims: seq<Key>)

  datatype Step =
    | Incr(key: Key, delta: int)
    | Insert(c: nat, outcome: Outcome)
    | Add(c: nat, now: int, outcome: Outcome)
    | Cancel(c: nat)
    | Claim(key: Key, outcome: Outcome)

  const MAX_TRIES := 3

  function Init(target: nat -> int): State {
    State(target, map[], [], [])
  }

  const NEW_ROW := Row(0, false, Never, false)

  /** INSERT ... ON CONFLICT DO NOTHING. */
  function Inserted(rows: map<Key, Row>, key: Key): map<Key, Row> {
    if key in rows then rows else rows[key := NEW_ROW]
  }

  /** All right-hand sides read the row as it was. */
  function Bumped(r: Row, delta: int, target: int, now: int): Row {
    var reached := target > 0 && r.progress + delta >= target;
    Row(r.progress + delta,
        reached || r.completed,
        if reached && !r.completed then At(now) else r.completedAt,
        r.claimed)
  }

  predicate Open(rows: map<Key, Row>, key: Key) {
    key in rows && !rows[key].claimed
  }

  /** The increment, which a claimed row no longer takes. */
  function AddTo(rows: map<Key, Row>, key: Key, delta: int, target: int, now: int): map<Key, Row> {
    if Open(rows, key) then rows[key := Bumped(rows[key], delta, target, now)] else rows
  }

  predicate Claimable(rows: map<Key, Row>, key: Key) {
    key in rows && rows[key].completed && !rows[key].claimed
  }

  function ClaimIn(rows: map<Key, Row>, key: Key): map<Key, Row> {
    if Claimable(rows, key) then rows[key := rows[key].(claimed := true)] else rows
  }

  function CallAt(s: State, c: nat): Call {
    if c < |s.calls| then s.calls[c] else Lost(Key("", 0, ""), 0, false)
  }

  /** What a call does after a statement did not go through. */
  function Again(k: Call, o: Outcome): Call {
    if o.Deadlock? && (k.Inserting? || k.Adding?) && k.tries + 1 < MAX_TRIES then Inserting(k.key, k.delta, k.tries + 1)
    else Lost(k.key, k.delta, false)
  }

  function DoInsert(s: State, c: nat, o: Outcome): State
    requires CallAt(s, c).Inserting?
  {
    var Inserting(key, delta, tries) := s.calls[c];
    if o.Ok? then s.(rows := Inserted(s.rows, key), calls := s.calls[c := Adding(key, delta, tries)])
    else s.(rows := if o == Error(true) then Inserted(s.rows, key) else s.rows, calls := s.calls[c := Again(s.calls[c], o)])
  }

  function DoAdd(s: State, c: nat, now: int, o: Outcome): State
    requires CallAt(s, c).Adding?
  {
    var Adding(key, delta, tries) := s.calls[c];
    if o.Ok? then
      s.(rows := AddTo(s.rows, key, delta, s.target(key.task), now),
         calls := s.calls[c := if Open(s.rows, key) then Added(key, delta) else Refused(key, delta)])
    else if o == Error(true) then
      s.(rows := AddTo(s.rows, key, delta, s.target(key.task), now), calls := s.calls[c := Lost(key, delta, Open(s.rows, key))])
    else s.(calls := s.calls[c := Again(s.calls[c], o)])
  }

  function DoClaim(s: State, key: Key): State {
    s.(rows := ClaimIn(s.rows, key), claims := if Claimable(s.rows, key) then s.claims + [key] else s.claims)
  }

  /** One step; a step that is not enabled changes nothing. */
  function Apply(s: State, step: Step): State {
    match step
    case Incr(key, delta) => if delta <= 0 then s else s.(calls := s.calls + [Inserting(key, delta, 0)])
    case Insert(c, o) => if CallAt(s, c).Inserting? then DoInsert(s, c, o) else s
    case Add(c, now, o) => if CallAt(s, c).Adding? then DoAdd(s, c, now, o) else s
    case Cancel(c) =>  // the context ends while the call waits for its next try
      if CallAt(s, c).Inserting? && s.calls[c].tries > 0 then
        s.(calls := s.calls[c := Lost(s.calls[c].key, s.calls[c].delta, false)])
      else s
    case Claim(key, o) => if o.Ok? || o == Error(true) then DoClaim(s, key) else s
  }

  function Exec(s: State, steps: seq<Step>): State
    decreases |steps|
  {
    if steps == [] then s else Exec(Apply(s, steps[0]), steps[1..])
  }

  // ---------- the invariant ----------

  function AddedTo(key: Key): Call -> int {
    (k: Call) => if (k.Added? || (k.Lost? && k.applied)) && k.key == key then k.delta else 0
  }

  function Progress(s: State, key: Key): int {
    if key in s.rows then s.rows[key].progress else 0
  }

  ghost predicate RowInv(r: Row, target: int) {
    && r.progress >= 0
    && (r.completed <==> target > 0 && r.progress >= target)
    && (r.completed <==> r.completedAt.At?)
    && (r.claimed ==> r.completed)
  }

  ghost predicate RowsInv(s: State) {
    forall key :: key in s.rows ==> RowInv(s.rows[key], s.target(key.task))
  }

  ghost predicate CallsInv(s: State) {
    forall k :: k in s.calls && (k.Inserting? || k.Adding?) ==> k.delta > 0
  }

  ghost predicate SumInv(s: State) {
    forall key :: Progress(s, key) == SumBy(s.calls, AddedTo(key))
  }

  ghost predicate ClaimsInv(s: State) {
    && (forall i, j :: 0 <= i < j < |s.claims| ==> s.claims[i] != s.claims[j])
    && (forall key :: key in s.claims <==> key in s.rows && s.rows[key].claimed)
  }

  ghost predicate Inv(s: State) {
    RowsInv(s) && CallsInv(s) && SumInv(s) && ClaimsInv(s)
  }

  lemma StepKeepsRows(s: State, step: Step)
    requires RowsInv(s) && CallsInv(s)
    ensures RowsInv(Apply(s, step)) && CallsInv(Apply(s, step))
  {
  }

  lemma AddKeepsSum(s: State, c: nat, now: int, o: Outcome, key: Key)
    requires Progress(s, key) == SumBy(s.calls, AddedTo(key)) && CallAt(s, c).Adding?
    ensures Progress(DoAdd(s, c, now, o), key) == SumBy(DoAdd(s, c, now, o).calls, AddedTo(key))
  {
    SumByUpdate(s.calls, c, DoAdd(s, c, now, o).calls[c], AddedTo(key));
    hide SumBy;
  }

  lemma InsertKeepsSum(s: State, c: nat, o: Outcome, key: Key)
    requires Progress(s, key) == SumBy(s.calls, AddedTo(key)) && CallAt(s, c).Inserting?
    ensures Progress(DoInsert(s, c, o), key) == SumBy(DoInsert(s, c, o).calls, AddedTo(key))
  {
    SumByUpdate(s.calls, c, DoInsert(s, c, o).calls[c], AddedTo(key));
    hide SumBy;
  }

  lemma StepKeepsSumOf(s: State, step: Step, key: Key)
    requires Progress(s, key) == SumBy(s.calls, AddedTo(key))
    ensures Progress(Apply(s, step), key) == SumBy(Apply(s, step).calls, AddedTo(key))
  {
    hide DoAdd, DoInsert, SumBy;
    match step
    case Incr(k, delta) => SumByAppend(s.calls, Inserting(k, delta, 0), AddedTo(key));
    case Insert(c, o) => if CallAt(s, c).Inserting? { InsertKeepsSum(s, c, o, key); }
    case Add(c, now, o) => if CallAt(s, c).Adding? { AddKeepsSum(s, c, now, o, key); }
    case Cancel(c) => if c < |s.calls| { SumByUpdate(s.calls, c, Apply(s, step).calls[c], AddedTo(key)); }
    case Claim(k, o) =>
  }

  lemma StepKeepsSum(s: State, step: Step)
    requires SumInv(s)
    ensures SumInv(Apply(s, step))
  {
    hide Apply;
    forall key ensures Progress(Apply(s, step), key) == SumBy(Apply(s, step).calls, AddedTo(key)) {
      assert Progress(s, key) == SumBy(s.calls, AddedTo(key));
      StepKeepsSumOf(s, step, key);
    }
  }

  lemma StepKeepsClaims(s: State, step: Step)
    requires ClaimsInv(s)
    ensures ClaimsInv(Apply(s, step))
  {
  }

  lemma {:induction false} RunKeeps(s: State, steps: seq<Step>)
    requires Inv(s)
    ensures Inv(Exec(s, steps)) && Exec(s, steps).target == s.target
    decreases |steps|
  {
    if steps != [] {
      StepKeepsRows(s, steps[0]);
      StepKeepsSum(s, steps[0]);
      StepKeepsClaims(s, steps[0]);
      RunKeeps(Apply(s, steps[0]), steps[1..]);
    }
  }

  // ---------- what holds over whole runs ----------

  /**
   In every reachable state: progress is the sum of the increments that took effect, each call
   counting at most once however often it retried, those whose answer was lost included; a task is
   completed exactly when it has a positive target and progress has reached it; the completion time is
   set exactly then; and each user, task and period is claimed at most once, by a claim that found it
   completed.
   */
  lemma ProgressIsExact(target: nat -> int, steps: seq<Step>, key: Key)
    ensures var s := Exec(Init(target), steps);
      && Progress(s, key) == SumBy(s.calls, AddedTo(key))
      && (key in s.rows ==>
            var r := s.rows[key];
            && (r.completed <==> target(key.task) > 0 && r.progress >= target(key.task))
            && (r.completed <==> r.completedAt.At?)
            && (r.claimed ==> r.completed))
      && (key in s.claims <==> key in s.rows && s.rows[key].claimed)
      && (forall i, j :: 0 <= i < j < |s.claims| ==> s.claims[i] != s.claims[j])
  {
    forall k ensures Progress(Init(target), k) == SumBy(Init(target).calls, AddedTo(k)) {}
    RunKeeps(Init(target), steps);
  }

  lemma StepFreezes(s: State, step: Step, key: Key)
    requires RowsInv(s) && key in s.rows && s.rows[key].completed
    ensures var s' := Apply(s, step);
      && key in s'.rows
      && (s.rows[key].claimed ==> s'.rows[key] == s.rows[key])
      && s'.rows[key].completed && s'.rows[key].completedAt == s.rows[key].completedAt
  {
  }

  /** A claimed row never changes again, and a completion time once set stays. */
  lemma {:induction false} ClaimedIsFrozen(s: State, steps: seq<Step>, key: Key)
    requires Inv(s) && key in s.rows && s.rows[key].completed
    ensures var s' := Exec(s, steps);
      && key in s'.rows
      && (s.rows[key].claimed ==> s'.rows[key] == s.rows[key])
      && s'.rows[key].completed && s'.rows[key].completedAt == s.rows[key].completedAt
    decreases |steps|
  {
    if steps != [] {
      StepKeepsRows(s, steps[0]);
      StepKeepsSum(s, steps[0]);
      StepKeepsClaims(s, steps[0]);
      StepFreezes(s, steps[0], key);
      hide Apply, Inv;
      ClaimedIsFrozen(Apply(s, steps[0]), steps[1..], key);
    }
  }

  ghost predicate TriesInv(s: State) {
    forall k :: k in s.calls && (k.Inserting? || k.Adding?) ==> k.tries < 3
  }

  lemma StepKeepsTries(s: State, step: Step)
    requires TriesInv(s)
    ensures TriesInv(Apply(s, step))
  {
  }

  /** No call tries more than three times. */
  lemma {:induction false} AtMostThreeTries(s: State, steps: seq<Step>)
    requires TriesInv(s)
    ensures TriesInv(Exec(s, steps))
    decreases |steps|
  {
    if steps != [] {
      StepKeepsTries(s, steps[0]);
      hide Apply;
      AtMostThreeTries(Apply(s, steps[0]), steps[1..]);
    }
  }

  /** A deadlock in either statement changes nothing and starts the call over, until its third try. */
  lemma DeadlocksAreRetried(s: State, c: nat, now: int)
    requires CallAt(s, c).Inserting? || CallAt(s, c).Adding?
    ensures var s' := Apply(s, if s.calls[c].Inserting? then Insert(c, Deadlock) else Add(c, now, Deadlock));
      var k := s.calls[c];
      && s'.rows == s.rows
      && s'.calls == s.calls[c := if k.tries < 2 then Inserting(k.key, k.delta, k.tries + 1) else Lost(k.key, k.delta, false)]
  {
  }

  // ---------- as the program runs them ----------

  /** What a try reports, given how its insert and its increment go. */
  function TryResult(o: (Outcome, Outcome)): Outcome {
    if o.0.Ok? then o.1 else o.0
  }

  /** After nothing but deadlocks, try i reports o, or the wait before it is cancelled. */
  predicate EndsAt(outcomes: nat -> (Outcome, Outcome), cancelled: nat -> bool, i: nat, o: Outcome) {
    && (forall j: nat :: j < i ==> TryResult(outcomes(j)).Deadlock? && (j > 0 ==> !cancelled(j)))
    && if i > 0 && cancelled(i) then o == Error(false) else TryResult(outcomes(i)) == o
  }

  class TaskRepository {
    var rows: map<Key, Row>

    constructor ()
      ensures rows == map[]
    {
      rows := map[];
    }

    /** One try; a deadlock or an error without effect leaves the row as the statement found it. */
    method IncrProgressOnce(key: Key, target: int, delta: int, now: int, insert: Outcome, add: Outcome) returns (o: Outcome)
      modifies this
      ensures rows == if insert == Deadlock || insert == Error(false) then old(rows)
                      else if insert == Error(true) || add == Deadlock || add == Error(false) then Inserted(old(rows), key)
                      else AddTo(Inserted(old(rows), key), key, delta, target, now)
      ensures o == if insert.Ok? then add else insert
      ensures forall k :: k != key ==> (k in rows <==> k in old(rows)) && (k in rows ==> rows[k] == old(rows)[k])
      ensures o.Ok? ==>
        var r := if key in old(rows) then old(rows)[key] else Row(0, false, Never, false);
        var reached := target > 0 && r.progress + delta >= target;
        key in rows && rows[key] ==
          if r.claimed then r
          else Row(r.progress + delta, reached || r.completed, if reached && !r.completed then At(now) else r.completedAt, false)
    {
      if insert.Ok? || insert == Error(true) {
        if key !in rows {
          rows := rows[key := NEW_ROW];
        }
      }
      if !insert.Ok? {
        return insert;
      }
      if add.Ok? || add == Error(true) {
        var r := rows[key];
        if !r.claimed {
          var reached := target > 0 && r.progress + delta >= target;
          rows := rows[key := Row(r.progress + delta,
                                  if reached then true else r.completed,
                                  if reached && !r.completed then At(now) else r.completedAt,
                                  r.claimed)];
        }
      }
      return add;
    }

    /**
     Retries on deadlock, at most three tries in all, and gives up when cancelled in between. Without
     an error the increment is applied exactly once unless the row is claimed; with one it is not
     applied, or once if the error of the last try hid its effect.
     */
    method IncrProgress(key: Key, target: int, delta: int, now: int,
                        outcomes: nat -> (Outcome, Outcome), cancelled: nat -> bool) returns (o: Outcome)
      modifies this
      ensures delta <= 0 ==> o.Ok? && rows == old(rows)
      ensures delta > 0 && o.Ok? ==> rows == AddTo(Inserted(old(rows), key), key, delta, target, now)
      ensures delta > 0 && !o.Ok? ==>
        || rows == old(rows)
        || rows == Inserted(old(rows), key)
        || (o == Error(true) && rows == AddTo(Inserted(old(rows), key), key, delta, target, now))
      ensures delta > 0 && !o.Deadlock? ==> exists i :: 0 <= i < 3 && EndsAt(outcomes, cancelled, i, o)
      ensures delta > 0 && o.Deadlock? ==> forall i :: 0 <= i < 3 ==> TryResult(outcomes(i)).Deadlock?
    {
      if delta <= 0 {
        return Ok;
      }
      var attempt := 0;
      o := Deadlock;
      while attempt < MAX_TRIES
        invariant 0 <= attempt <= MAX_TRIES
        invariant o.Deadlock?
        invariant rows == old(rows) || rows == Inserted(old(rows), key)
        invariant forall i :: 0 <= i < attempt ==> TryResult(outcomes(i)).Deadlock? && (i > 0 ==> !cancelled(i))
      {
        if attempt > 0 && cancelled(attempt) {
          assert EndsAt(outcomes, cancelled, attempt, Error(false));
          return Error(false);
        }
        o := IncrProgressOnce(key, target, delta, now, outcomes(attempt).0, outcomes(attempt).1);
        if !o.Deadlock? {
          assert EndsAt(outcomes, cancelled, attempt, o);
          return o;
        }
        attempt := attempt + 1;
      }
    }

    method ClaimReward(key: Key) returns (ok: bool)
      modifies this
      ensures ok <==> Claimable(old(rows), key)
      ensures rows == ClaimIn(old(rows), key)
      ensures ok <==> key in old(rows) && old(rows)[key].completed && !old(rows)[key].claimed
      ensures rows == if ok then old(rows)[key := old(rows)[key].(claimed := true)] else old(rows)
    {
      ok := key in rows && rows[key].completed && !rows[key].claimed;
      if ok {
        rows := rows[key := rows[key].(claimed := true)];
      }
    }
  }
}
