/**
 Session settlement: daily quota reservation, the guarded close with its outbox row, and the
 release of the quota, interleaved with each other and with every step of the points outbox.

 One Redis script, one guarded UPDATE and one business transaction are atomic steps. A failed
 transaction changes nothing. The runs cover one local day with the counter keys warm.
 */
module Settlement {
  import opened Sums
  import opened Decimals
  import Outbox

  datatype RecordStatus = Active | Completed | Timeout

  /** An idle_records row; its position in the table is its id. */
  datatype Record = Record(user: string, device: string, start: int, status: RecordStatus, earned: int)

  /** daily_points_limit and points_per_minute of the configuration. */
  datatype Config = Config(limit: int, pointsPerMinute: int)

  const IDLE_PREFIX := "pts:idle:"

  function IdleEvent(id: nat): string {
    IDLE_PREFIX + Decimal(id)
  }

  predicate IsIdleEvent(e: string) {
    IDLE_PREFIX <= e
  }

  function Max(a: int, b: int): int {
    if a >= b then a else b
  }

  /** Points of a session of the given length: at least one minute, whole minutes only. */
  function Points(cfg: Config, seconds: int): int {
    Max(seconds / 60, 1) * cfg.pointsPerMinute
  }

  /** A session of the given length counts as m minutes: its whole minutes, but at least one. */
  ghost predicate CountsAs(seconds: int, m: int) {
    m >= 1 && seconds < 60 * (m + 1) && (m > 1 ==> 60 * m <= seconds)
  }

  /** Every length counts as some number of minutes, and only one; that many times the rate is what it is worth. */
  lemma PointsAreWholeMinutes(cfg: Config, seconds: int, m: int)
    ensures CountsAs(seconds, m) ==> Points(cfg, seconds) == m * cfg.pointsPerMinute
    ensures exists k :: CountsAs(seconds, k)
  {
    assert CountsAs(seconds, if seconds < 120 then 1 else seconds / 60);
    if CountsAs(seconds, m) {
      assert m == Max(seconds / 60, 1);
    }
  }

  /** What the acquire script grants when the counter stands at cur; a grant is added to the counter. */
  function Grant(cur: int, want: int, limit: int): int {
    var granted := if cur + want <= limit then want else limit - cur;
    if granted <= 0 then 0 else granted
  }

  function CounterOf(counter: map<string, int>, u: string): int {
    if u in counter then counter[u] else 0
  }

  function Bump(counter: map<string, int>, u: string, amount: int): map<string, int> {
    if amount == 0 then counter else counter[u := CounterOf(counter, u) + amount]
  }

  // ---------- interleaved runs ----------

  /** Where one settleSession call stands; its record was read at some earlier time. */
  datatype Settler =
    | Ended
    | Begun(rec: nat, user: string, completed: bool, want: int)
    | Granted(rec: nat, user: string, completed: bool, granted: int)
    | Undo(rec: nat, user: string, granted: int)

  datatype Leak = Leak(user: string, amount: int)

  /**
   base is each counter at the start, leaks lists grants that were never confirmed nor given
   back, and closed lists the records whose close took effect; the program reads none of them.
   */
  datatype State = State(
    cfg: Config,
    records: seq<Record>,
    points: Outbox.State,
    counter: map<string, int>,
    base: map<string, int>,
    leaks: seq<Leak>,
    closed: seq<nat>,
    settlers: seq<Settler>)

  datatype Step =
    | Create(user: string, device: string, start: int)
    | Begin(rec: nat, completed: bool, now: int)
    | Acquire(w: nat, outcome: Outbox.Outcome)
    | Close(w: nat, failed: bool)
    | Release(w: nat, outcome: Outbox.Outcome)
    | Crash(w: nat)
    | Deliver(step: Outbox.Step)

  function Init(cfg: Config, counter: map<string, int>, opening: map<string, nat>): State {
    State(cfg, [], Outbox.Init(opening), counter, counter, [], [], [])
  }

  function SettlerAt(s: State, w: nat): Settler {
    if w < |s.settlers| then s.settlers[w] else Ended
  }

  function Set(s: State, w: nat, k: Settler): State
    requires w < |s.settlers|
  {
    s.(settlers := s.settlers[w := k])
  }

  /** A second active session of the same user and device violates the unique index. */
  predicate HasActive(records: seq<Record>, user: string, device: string) {
    exists r :: r in records && r.user == user && r.device == device && r.status.Active?
  }

  function DoAcquire(s: State, w: nat, o: Outbox.Outcome): State
    requires w < |s.settlers| && s.settlers[w].Begun?
  {
    var Begun(rec, u, completed, want) := s.settlers[w];
    if s.cfg.limit <= 0 then Set(s, w, Granted(rec, u, completed, want))
    else
      var g := Grant(CounterOf(s.counter, u), want, s.cfg.limit);
      if o.Ok? then Set(s.(counter := Bump(s.counter, u, g)), w, Granted(rec, u, completed, g))
      else if o.took then Set(s.(counter := Bump(s.counter, u, g), leaks := s.leaks + [Leak(u, g)]), w, Ended)
      else Set(s, w, Ended)
  }

  function ClosedRecord(r: Record, completed: bool, earned: int): Record {
    r.(status := if completed then Completed else Timeout, earned := earned)
  }

  /** The guarded close; with points to pay, the outbox row is written in the same transaction. */
  function DoClose(s: State, w: nat, failed: bool): State
    requires w < |s.settlers| && s.settlers[w].Granted?
  {
    var Granted(rec, u, completed, g) := s.settlers[w];
    var giveUp := Set(s, w, if g > 0 then Undo(rec, u, g) else Ended);
    if failed || rec >= |s.records| || !s.records[rec].status.Active? then giveUp
    else if g != 0 && Outbox.Find(s.points.rows, IdleEvent(rec)) >= 0 then giveUp  // unique index: rolled back
    else
      Set(s.(records := s.records[rec := ClosedRecord(s.records[rec], completed, g)],
             points := if g == 0 then s.points else Outbox.DoAppend(s.points, IdleEvent(rec), u, g, 0),
             closed := s.closed + [rec]), w, Ended)
  }

  function DoRelease(s: State, w: nat, o: Outbox.Outcome): State
    requires w < |s.settlers| && s.settlers[w].Undo?
  {
    var Undo(_, u, g) := s.settlers[w];
    if o.Ok? || o.took then Set(s.(counter := Bump(s.counter, u, -g)), w, Ended)
    else Set(s.(leaks := s.leaks + [Leak(u, g)]), w, Ended)
  }

  function DoCrash(s: State, w: nat): State
    requires w < |s.settlers|
  {
    var k := s.settlers[w];
    if k.Granted? || k.Undo? then Set(s.(leaks := s.leaks + [Leak(k.user, k.granted)]), w, Ended)
    else Set(s, w, Ended)
  }

  /** One step; a step that is not enabled changes nothing. */
  function Apply(s: State, step: Step): State {
    match step
    case Create(user, device, start) =>
      if HasActive(s.records, user, device) then s
      else s.(records := s.records + [Record(user, device, start, Active, 0)])
    case Begin(rec, completed, now) =>
      if rec < |s.records| && s.records[rec].user in s.counter then
        s.(settlers := s.settlers +
             [Begun(rec, s.records[rec].user, completed, Points(s.cfg, now - s.records[rec].start))])
      else s
    case Acquire(w, o) => if SettlerAt(s, w).Begun? then DoAcquire(s, w, o) else s
    case Close(w, failed) => if SettlerAt(s, w).Granted? then DoClose(s, w, failed) else s
    case Release(w, o) => if SettlerAt(s, w).Undo? then DoRelease(s, w, o) else s
    case Crash(w) => if SettlerAt(s, w).Ended? then s else DoCrash(s, w)
    case Deliver(step) =>
      if step.Append? && IsIdleEvent(step.event) then s  // only settlement writes idle rows
      else s.(points := Outbox.Apply(s.points, step))
  }

  function Exec(s: State, steps: seq<Step>): State
    decreases |steps|
  {
    if steps == [] then s else Exec(Apply(s, steps[0]), steps[1..])
  }

  // ---------- the invariants ----------

  function EarnedBy(u: string): Record -> int {
    (r: Record) => if r.user == u then r.earned else 0
  }

  function IdleDelta(u: string): Outbox.Row -> int {
    (r: Outbox.Row) => if r.user == u && IsIdleEvent(r.event) then r.delta else 0
  }

  function HeldFor(u: string): Settler -> int {
    (k: Settler) => if (k.Granted? || k.Undo?) && k.user == u then k.granted else 0
  }

  function LeakedFrom(u: string): Leak -> int {
    (l: Leak) => if l.user == u then l.amount else 0
  }

  /** The outbox row of record i, or -1. */
  function RowOf(s: State, i: nat): int {
    Outbox.Find(s.points.rows, IdleEvent(i))
  }

  /** Records and idle rows match one to one, and the closes are the records that left active. */
  ghost predicate RecordInv(s: State) {
    && (forall i :: 0 <= i < |s.records| ==>
          && (s.records[i].status.Active? ==> s.records[i].earned == 0)
          && (RowOf(s, i) >= 0 <==> s.records[i].earned != 0)
          && (RowOf(s, i) >= 0 ==>
                var row := s.points.rows[RowOf(s, i)];
                row.user == s.records[i].user && row.delta == s.records[i].earned))
    && (forall j :: 0 <= j < |s.points.rows| && IsIdleEvent(s.points.rows[j].event) ==>
          exists i: nat :: i < |s.records| && s.points.rows[j].event == IdleEvent(i))
  }

  ghost predicate SettlerInv(s: State) {
    forall w :: 0 <= w < |s.settlers| && !s.settlers[w].Ended? ==>
      s.settlers[w].rec < |s.records| && s.records[s.settlers[w].rec].user == s.settlers[w].user
  }

  ghost predicate ClosedInv(s: State) {
    && (forall i, j :: 0 <= i < j < |s.closed| ==> s.closed[i] != s.closed[j])
    && (forall i :: i in s.closed ==> i < |s.records| && !s.records[i].status.Active?)
    && (forall i :: 0 <= i < |s.records| && !s.records[i].status.Active? ==> i in s.closed)
  }

  /** The idle rows of a user add up to what the user's records earned. */
  ghost predicate EarnedInv(s: State) {
    forall u :: SumBy(s.records, EarnedBy(u)) == SumBy(s.points.rows, IdleDelta(u))
  }

  /** What the counter of u must stand at. */
  function Accounted(s: State, u: string): int
    requires u in s.base
  {
    s.base[u] + SumBy(s.records, EarnedBy(u)) + SumBy(s.settlers, HeldFor(u)) + SumBy(s.leaks, LeakedFrom(u))
  }

  /** With a limit, every counter splits into confirmed, held and leaked points, and stays below the limit. */
  ghost predicate QuotaInv(s: State) {
    && s.cfg.limit > 0
    && s.counter.Keys == s.base.Keys
    && (forall u :: u in s.counter ==> s.counter[u] <= s.cfg.limit && s.counter[u] == Accounted(s, u))
  }

  ghost predicate QuotaSigns(s: State) {
    && s.cfg.limit > 0
    && (forall k :: k in s.settlers && (k.Granted? || k.Undo?) ==> k.granted >= 0)
    && (forall k :: k in s.settlers && !k.Ended? ==> k.user in s.counter)
    && (forall l :: l in s.leaks ==> l.amount >= 0)
  }

  ghost predicate Inv(s: State) {
    Outbox.Inv(s.points) && RecordInv(s) && SettlerInv(s) && ClosedInv(s) && EarnedInv(s)
  }

  // ---------- every step keeps them ----------

  lemma IdleEventInjective(i: nat, j: nat)
    requires IdleEvent(i) == IdleEvent(j)
    ensures i == j
  {
    assert IdleEvent(i)[|IDLE_PREFIX|..] == Decimal(i);
    assert IdleEvent(j)[|IDLE_PREFIX|..] == Decimal(j);
    DecimalInjective(i, j);
  }

  /** q is p with statuses moved and rows of other producers added. */
  ghost predicate RowsGrew(p: seq<Outbox.Row>, q: seq<Outbox.Row>) {
    && |p| <= |q|
    && Outbox.UniqueEvents(q)
    && (forall j :: 0 <= j < |p| ==> q[j] == p[j].(status := q[j].status))
    && (forall j :: |p| <= j < |q| ==> !IsIdleEvent(q[j].event))
  }

  lemma OutboxFrame(p: Outbox.State, step: Outbox.Step)
    requires Outbox.Inv(p) && !(step.Append? && IsIdleEvent(step.event))
    ensures Outbox.Inv(Outbox.Apply(p, step))
    ensures RowsGrew(p.rows, Outbox.Apply(p, step).rows)
    ensures |Outbox.Apply(p, step).rows| <= |p.rows| + 1
  {
    Outbox.StepKeeps(p, step);
  }

  lemma IdleSumFrame(p: seq<Outbox.Row>, q: seq<Outbox.Row>, u: string)
    requires RowsGrew(p, q) && |q| <= |p| + 1
    ensures SumBy(q, IdleDelta(u)) == SumBy(p, IdleDelta(u))
  {
    SumBySame(p, q[..|p|], IdleDelta(u), IdleDelta(u));
    if |q| == |p| {
      assert q[..|p|] == q;
    } else {
      assert q[..|p|] + [q[|p|]] == q;
      SumByAppend(q[..|p|], q[|p|], IdleDelta(u));
    }
  }

  lemma RecordFrame(s: State, q: Outbox.State)
    requires RecordInv(s) && RowsGrew(s.points.rows, q.rows)
    ensures RecordInv(s.(points := q))
  {
    var s' := s.(points := q);
    forall i: nat ensures RowOf(s', i) == RowOf(s, i) {
      if RowOf(s, i) >= 0 { Outbox.FindIs(q.rows, RowOf(s, i)); }
    }
  }

  lemma DeliverKeeps(s: State, step: Outbox.Step)
    requires Inv(s) && !(step.Append? && IsIdleEvent(step.event))
    ensures Inv(Apply(s, Deliver(step)))
  {
    var q := Outbox.Apply(s.points, step);
    OutboxFrame(s.points, step);
    RecordFrame(s, q);
    forall u ensures SumBy(q.rows, IdleDelta(u)) == SumBy(s.points.rows, IdleDelta(u)) {
      IdleSumFrame(s.points.rows, q.rows, u);
    }
  }

  /** A record that is new has no outbox row yet. */
  lemma CreateKeepsRecords(s: State, r: Record)
    requires RecordInv(s) && r.status.Active? && r.earned == 0
    ensures RecordInv(s.(records := s.records + [r]))
  {
    hide SumBy;
    var n := |s.records|;
    var s' := s.(records := s.records + [r]);
    forall i: nat | i < n ensures IdleEvent(n) != IdleEvent(i) {
      if IdleEvent(n) == IdleEvent(i) { IdleEventInjective(n, i); }
    }
    hide IdleEvent;
    assert RowOf(s, n) < 0;
    forall i: nat ensures RowOf(s', i) == RowOf(s, i) {}
  }

  lemma CreateKeeps(s: State, user: string, device: string, start: int)
    requires Inv(s)
    ensures Inv(Apply(s, Create(user, device, start)))
  {
    hide SumBy, Outbox.Inv, IdleEvent;
    if !HasActive(s.records, user, device) {
      var r := Record(user, device, start, Active, 0);
      CreateKeepsRecords(s, r);
      hide RecordInv;
      forall u ensures SumBy(s.records + [r], EarnedBy(u)) == SumBy(s.records, EarnedBy(u)) {
        SumByAppend(s.records, r, EarnedBy(u));
      }
    }
  }

  /** Closing with points: one record and one row change, by the same amount. */
  lemma PaidCloseKeepsRecords(s: State, w: nat)
    requires Inv(s) && SettlerAt(s, w).Granted? && s.settlers[w].granted != 0
    requires s.records[s.settlers[w].rec].status.Active?
    ensures RecordInv(DoClose(s, w, false))
  {
    var Granted(rec, u, completed, g) := s.settlers[w];
    var s' := DoClose(s, w, false);
    assert RowOf(s, rec) < 0;
    assert s'.points.rows[..|s.points.rows|] == s.points.rows;
    forall i: nat | i < |s.records| && i != rec ensures RowOf(s', i) == RowOf(s, i) {
      if IdleEvent(i) == IdleEvent(rec) { IdleEventInjective(i, rec); }
    }
  }

  lemma CloseKeepsEarned(s: State, w: nat, failed: bool)
    requires Inv(s) && SettlerAt(s, w).Granted?
    ensures EarnedInv(DoClose(s, w, failed))
  {
    hide SumBy, Outbox.Inv;
    var Granted(rec, u, completed, g) := s.settlers[w];
    var s' := DoClose(s, w, failed);
    if s'.records != s.records {
      forall v ensures SumBy(s'.records, EarnedBy(v)) == SumBy(s'.points.rows, IdleDelta(v)) {
        SumByUpdate(s.records, rec, s'.records[rec], EarnedBy(v));
        if g != 0 {
          SumByAppend(s.points.rows, Outbox.Row(IdleEvent(rec), u, g, Outbox.Pending, 0), IdleDelta(v));
        }
      }
    }
  }

  lemma FreeCloseKeepsRecords(s: State, w: nat, failed: bool)
    requires RecordInv(s) && SettlerInv(s) && SettlerAt(s, w).Granted?
    requires failed || s.settlers[w].granted == 0 || !s.records[s.settlers[w].rec].status.Active?
    ensures RecordInv(DoClose(s, w, failed))
  {
    assert DoClose(s, w, failed).points == s.points;
    forall i: nat ensures RowOf(DoClose(s, w, failed), i) == RowOf(s, i) {}
  }

  lemma CloseKeepsOthers(s: State, w: nat, failed: bool)
    requires SettlerInv(s) && ClosedInv(s) && SettlerAt(s, w).Granted?
    ensures SettlerInv(DoClose(s, w, failed)) && ClosedInv(DoClose(s, w, failed))
  {
    var s' := DoClose(s, w, failed);
    var rec := s.settlers[w].rec;
    if s'.closed != s.closed {
      assert s'.closed[|s.closed|] == rec;
      assert forall i :: i in s'.closed <==> i in s.closed || i == rec;
    }
  }

  lemma CloseKeepsPoints(s: State, w: nat, failed: bool)
    requires Outbox.Inv(s.points) && SettlerAt(s, w).Granted?
    ensures Outbox.Inv(DoClose(s, w, failed).points)
  {
    var Granted(rec, u, _, g) := s.settlers[w];
    Outbox.AppendKeeps(s.points, IdleEvent(rec), u, g, 0);
  }

  lemma CloseKeeps(s: State, w: nat, failed: bool)
    requires Inv(s) && SettlerAt(s, w).Granted?
    ensures Inv(DoClose(s, w, failed))
  {
    CloseKeepsEarned(s, w, failed);
    CloseKeepsOthers(s, w, failed);
    CloseKeepsPoints(s, w, failed);
    if failed || s.settlers[w].granted == 0 || !s.records[s.settlers[w].rec].status.Active? {
      FreeCloseKeepsRecords(s, w, failed);
    } else {
      PaidCloseKeepsRecords(s, w);
    }
  }

  /** Every other step leaves records, rows and closes alone. */
  lemma OtherKeeps(s: State, step: Step)
    requires Inv(s) && (step.Begin? || step.Acquire? || step.Release? || step.Crash?)
    ensures Inv(Apply(s, step))
  {
    OtherFrame(s, step);
    OtherKeepsSettlers(s, step);
    hide Apply, SumBy, Outbox.Inv, SettlerInv;
  }

  lemma OtherFrame(s: State, step: Step)
    requires step.Begin? || step.Acquire? || step.Release? || step.Crash?
    ensures var s' := Apply(s, step);
      s'.records == s.records && s'.points == s.points && s'.closed == s.closed
  {
  }

  lemma OtherKeepsSettlers(s: State, step: Step)
    requires SettlerInv(s) && (step.Begin? || step.Acquire? || step.Release? || step.Crash?)
    ensures SettlerInv(Apply(s, step))
  {
    hide Points, Grant;
  }

  lemma StepKeeps(s: State, step: Step)
    requires Inv(s)
    ensures Inv(Apply(s, step))
  {
    match step
    case Create(user, device, start) => CreateKeeps(s, user, device, start);
    case Close(w, failed) => if SettlerAt(s, w).Granted? { CloseKeeps(s, w, failed); }
    case Deliver(d) => if !(d.Append? && IsIdleEvent(d.event)) { DeliverKeeps(s, d); }
    case Begin(_, _, _) => OtherKeeps(s, step);
    case Acquire(_, _) => OtherKeeps(s, step);
    case Release(_, _) => OtherKeeps(s, step);
    case Crash(_) => OtherKeeps(s, step);
  }

  lemma {:induction false} RunKeeps(s: State, steps: seq<Step>)
    requires Inv(s)
    ensures Inv(Exec(s, steps))
    decreases |steps|
  {
    if steps != [] {
      StepKeeps(s, steps[0]);
      RunKeeps(Apply(s, steps[0]), steps[1..]);
    }
  }
}
